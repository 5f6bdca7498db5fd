/** `detect_outliers`: the IQR fence, the z-score rule, an isolation forest and
    their majority vote, on individual records or on monthly cost totals. The
    isolation forest is an oracle: its verdict on the i-th value of a column. */
module Outliers {
  import opened Wrappers
  import opened Stats
  import opened Dataset

  /** The method names the page offers; any other name runs the ensemble. */
  datatype DetectionMethod = IqrMethod | ZScore | IsolationForest | Ensemble

  function ParseMethod(name: string): DetectionMethod
  {
    if name == "IQR Method" then IqrMethod
    else if name == "Z-Score" then ZScore
    else if name == "Isolation Forest" then IsolationForest
    else Ensemble
  }

  /** The temporal branch has no z-score case of its own: "Z-Score" falls through to the ensemble. */
  function TemporalMethod(m: DetectionMethod): DetectionMethod
  {
    if m == ZScore then Ensemble else m
  }

  /** `IsolationForest(contamination, random_state=42).fit_predict(column)[i] == -1`. */
  type IsolationOracle = (seq<real>, real, nat) -> bool

  // ---------------------------------------------------------------------------
  // The three rules, each with its guard
  // ---------------------------------------------------------------------------

  datatype Fence = Fence(lower: real, upper: real)

  /** Q1 - k*IQR and Q3 + k*IQR; None unless the IQR is positive (an empty
      column has NaN quartiles, which fail the test as well). */
  function IqrFence(values: seq<real>, k: real): Option<Fence>
  {
    if values == [] then None
    else
      var q1 := Quantile(values, 0.25).value;
      var q3 := Quantile(values, 0.75).value;
      var iqr := q3 - q1;
      if iqr > 0.0 then Some(Fence(q1 - k * iqr, q3 + k * iqr)) else None
  }

  predicate Outside(x: real, f: Fence)
  {
    x < f.lower || x > f.upper
  }

  function FenceMask(values: seq<real>, f: Fence): (mask: seq<bool>)
    ensures |mask| == |values|
  {
    seq(|values|, i requires 0 <= i < |values| => Outside(values[i], f))
  }

  /** `|x - mean| / std > k` for a column with positive spread, without the
      square root: a negative k is exceeded by every value, otherwise the
      squared deviation must exceed k^2 times the sample variance. */
  predicate ZExceeds(values: seq<real>, x: real, k: real)
    requires SpreadPositive(values)
  {
    k < 0.0 || Sq(x - Mean(values)) > Sq(k) * SampleVariance(values)
  }

  function ZMask(values: seq<real>, k: real): (mask: seq<bool>)
    requires SpreadPositive(values)
    ensures |mask| == |values|
  {
    seq(|values|, i requires 0 <= i < |values| => ZExceeds(values, values[i], k))
  }

  function IsoMask(values: seq<real>, contamination: real, iso: IsolationOracle): (mask: seq<bool>)
    ensures |mask| == |values|
  {
    seq(|values|, i requires 0 <= i < |values| => iso(values, contamination, i))
  }

  /** Each rule's mask on a column, None where its guard fails. */
  function IqrRule(values: seq<real>, k: real): (mask: Option<seq<bool>>)
    ensures mask.Some? ==> |mask.value| == |values|
  {
    var f := IqrFence(values, k);
    if f.Some? then Some(FenceMask(values, f.value)) else None
  }

  function ZRule(values: seq<real>, k: real): (mask: Option<seq<bool>>)
    ensures mask.Some? ==> |mask.value| == |values|
  {
    if SpreadPositive(values) then Some(ZMask(values, k)) else None
  }

  function IsoRule(values: seq<real>, contamination: real, iso: IsolationOracle): (mask: Option<seq<bool>>)
    ensures mask.Some? ==> |mask.value| == |values|
  {
    if |values| > 1 then Some(IsoMask(values, contamination, iso)) else None
  }

  // ---------------------------------------------------------------------------
  // The ensemble: each rule whose guard holds casts one vote per value
  // ---------------------------------------------------------------------------

  /** One rule's vote on the i-th value. */
  function Vote(rule: Option<seq<bool>>, i: nat): nat
  {
    if rule.Some? && i < |rule.value| && rule.value[i] then 1 else 0
  }

  function Votes(values: seq<real>, k: real, contamination: real, iso: IsolationOracle, i: nat): nat
  {
    Vote(IqrRule(values, k), i) + Vote(ZRule(values, k), i) + Vote(IsoRule(values, contamination, iso), i)
  }

  /** How many rules pass their guard on this column. */
  function Voters(values: seq<real>, k: real): nat
  {
    (if IqrFence(values, k).Some? then 1 else 0) +
    (if SpreadPositive(values) then 1 else 0) +
    (if |values| > 1 then 1 else 0)
  }

  /** The ensemble's verdict: None when no rule may vote, otherwise a value is
      flagged when at least two of the rules flag it. */
  function EnsembleMask(values: seq<real>, k: real, contamination: real, iso: IsolationOracle): Option<seq<bool>>
  {
    if Voters(values, k) == 0 then None
    else Some(seq(|values|, i requires 0 <= i < |values| => Votes(values, k, contamination, iso, i) >= 2))
  }

  /** `sum(methods_results)` at one position: how many of the collected masks
      flag it. Every collected mask has the column's length (CollectedLengths),
      so the guard on the length never excludes one. */
  function Tally(results: seq<seq<bool>>, i: nat): (n: nat)
    ensures n <= |results|
  {
    if results == [] then 0
    else
      var last := |results| - 1;
      Tally(results[..last], i) + (if i < |results[last]| && results[last][i] then 1 else 0)
  }

  lemma {:induction false} TallyConcat(x: seq<seq<bool>>, y: seq<seq<bool>>, i: nat)
    ensures Tally(x + y, i) == Tally(x, i) + Tally(y, i)
  {
    if y != [] {
      var last := |y| - 1;
      TallyConcat(x, y[..last], i);
      assert (x + y)[..|x + y| - 1] == x + y[..last];
    } else {
      assert x + y == x;
    }
  }

  /** A guarded rule's mask as the list it contributes to `methods_results`. */
  function Appended(rule: Option<seq<bool>>): seq<seq<bool>>
  {
    if rule.Some? then [rule.value] else []
  }

  lemma TallyAppended(rule: Option<seq<bool>>, n: nat, i: nat)
    requires rule.Some? ==> |rule.value| == n
    requires i < n
    ensures Tally(Appended(rule), i) == Vote(rule, i)
  {
    if rule.Some? {
      assert Appended(rule)[..0] == [];
    }
  }

  /** The masks of the rules that passed their guards, in the order they are appended. */
  function Collected(a: Option<seq<bool>>, b: Option<seq<bool>>, c: Option<seq<bool>>): seq<seq<bool>>
  {
    Appended(a) + Appended(b) + Appended(c)
  }

  /** Summing the collected masks counts, at each position, the rules that flag it. */
  lemma CollectedTally(a: Option<seq<bool>>, b: Option<seq<bool>>, c: Option<seq<bool>>, n: nat)
    requires a.Some? ==> |a.value| == n
    requires b.Some? ==> |b.value| == n
    requires c.Some? ==> |c.value| == n
    ensures var results := Collected(a, b, c);
      (forall j :: 0 <= j < |results| ==> |results[j]| == n) &&
      forall i :: 0 <= i < n ==> Tally(results, i) == Vote(a, i) + Vote(b, i) + Vote(c, i)
  {
    CollectedLengths(a, b, c, n);
    forall i | 0 <= i < n ensures Tally(Collected(a, b, c), i) == Vote(a, i) + Vote(b, i) + Vote(c, i) {
      CollectedTallyAt(a, b, c, n, i);
    }
  }

  /** Every collected mask is as long as the column. */
  lemma CollectedLengths(a: Option<seq<bool>>, b: Option<seq<bool>>, c: Option<seq<bool>>, n: nat)
    requires a.Some? ==> |a.value| == n
    requires b.Some? ==> |b.value| == n
    requires c.Some? ==> |c.value| == n
    ensures forall j :: 0 <= j < |Collected(a, b, c)| ==> |Collected(a, b, c)[j]| == n
  {
  }

  lemma CollectedTallyAt(a: Option<seq<bool>>, b: Option<seq<bool>>, c: Option<seq<bool>>, n: nat, i: nat)
    requires a.Some? ==> |a.value| == n
    requires b.Some? ==> |b.value| == n
    requires c.Some? ==> |c.value| == n
    requires i < n
    ensures Tally(Collected(a, b, c), i) == Vote(a, i) + Vote(b, i) + Vote(c, i)
  {
    var x, y, z := Appended(a), Appended(b), Appended(c);
    TallyAppended(a, n, i);
    TallyAppended(b, n, i);
    TallyAppended(c, n, i);
    var xy := x + y;
    TallyConcat(x, y, i);
    TallyConcat(xy, z, i);
    assert Collected(a, b, c) == xy + z;
  }

  /** The ensemble's verdict is the vote count over the collected masks. */
  lemma EnsembleOfCollected(values: seq<real>, k: real, contamination: real, iso: IsolationOracle)
    ensures var results := Collected(IqrRule(values, k), ZRule(values, k), IsoRule(values, contamination, iso));
      var mask := EnsembleMask(values, k, contamination, iso);
      (forall j :: 0 <= j < |results| ==> |results[j]| == |values|) &&
      (results == [] <==> mask.None?) &&
      (results != [] ==> mask.value == seq(|values|, i requires 0 <= i < |values| => Tally(results, i) >= 2))
  {
    var results := Collected(IqrRule(values, k), ZRule(values, k), IsoRule(values, contamination, iso));
    CollectedTally(IqrRule(values, k), ZRule(values, k), IsoRule(values, contamination, iso), |values|);
    assert |results| == Voters(values, k);
  }

  /** The ensemble branch: each rule whose guard holds appends its mask to
      `methods_results`, and the masks are then summed position by position. */
  method EnsembleVote(values: seq<real>, k: real, contamination: real, iso: IsolationOracle)
    returns (mask: Option<seq<bool>>)
    ensures mask == EnsembleMask(values, k, contamination, iso)
  {
    var n := |values|;
    var methodsResults: seq<seq<bool>> := [];
    var iqrOutliers := IqrRule(values, k);
    if iqrOutliers.Some? {
      methodsResults := methodsResults + [iqrOutliers.value];
    }
    var zscoreOutliers := ZRule(values, k);
    if zscoreOutliers.Some? {
      methodsResults := methodsResults + [zscoreOutliers.value];
    }
    var isoOutliers := IsoRule(values, contamination, iso);
    if isoOutliers.Some? {
      methodsResults := methodsResults + [isoOutliers.value];
    }
    assert methodsResults == Collected(iqrOutliers, zscoreOutliers, isoOutliers);
    EnsembleOfCollected(values, k, contamination, iso);
    if methodsResults == [] {
      return None;
    }
    mask := Some(seq(n, i requires 0 <= i < n => Tally(methodsResults, i) >= 2));
  }

  /** The mask of the chosen method; None where the method's guard fails and
      the branch returns an empty frame. */
  function MethodMask(values: seq<real>, m: DetectionMethod, k: real, contamination: real, iso: IsolationOracle)
    : (mask: Option<seq<bool>>)
    ensures mask.Some? ==> |mask.value| == |values|
  {
    match m
    case IqrMethod => IqrRule(values, k)
    case ZScore => ZRule(values, k)
    case IsolationForest => IsoRule(values, contamination, iso)
    case Ensemble => EnsembleMask(values, k, contamination, iso)
  }

  // ---------------------------------------------------------------------------
  // Selecting the flagged records
  // ---------------------------------------------------------------------------

  /** The months of the monthly series the mask flags. */
  function FlaggedMonths(series: seq<MonthTotal>, mask: Option<seq<bool>>): seq<YearMonth>
    requires mask.Some? ==> |mask.value| == |series|
  {
    if mask.None? then [] else SeriesMonths(Select(series, mask.value))
  }

  /** What `detect_outliers(df, method, threshold, contamination, analysis_type)` returns. */
  function DetectedOutliers(rows: seq<Observation>, methodName: string, k: real, contamination: real,
                            analysisType: string, iso: IsolationOracle): seq<Observation>
  {
    if analysisType == "temporal" then
      var series := MonthlySeries(rows);
      var months := FlaggedMonths(series, MethodMask(Totals(series), TemporalMethod(ParseMethod(methodName)), k, contamination, iso));
      Filter(rows, (o: Observation) => o.month in months)
    else
      var mask := MethodMask(Costs(rows), ParseMethod(methodName), k, contamination, iso);
      if mask.None? then [] else Select(rows, mask.value)
  }

  /** The branch structure of detect_outliers, with the ensemble's votes
      collected step by step. */
  method DetectOutliers(rows: seq<Observation>, methodName: string, k: real, contamination: real,
                        analysisType: string, iso: IsolationOracle)
    returns (outliers: seq<Observation>)
    ensures outliers == DetectedOutliers(rows, methodName, k, contamination, analysisType, iso)
  {
    var method_ := ParseMethod(methodName);
    if analysisType == "temporal" {
      var monthly := MonthlySeries(rows);
      var values := Totals(monthly);
      var mask: Option<seq<bool>>;
      if TemporalMethod(method_) == Ensemble {
        mask := EnsembleVote(values, k, contamination, iso);
      } else {
        mask := MethodMask(values, method_, k, contamination, iso);
      }
      var outlierMonths := FlaggedMonths(monthly, mask);
      return Filter(rows, (o: Observation) => o.month in outlierMonths);
    }
    var data := Costs(rows);
    var mask: Option<seq<bool>>;
    if method_ == Ensemble {
      mask := EnsembleVote(data, k, contamination, iso);
    } else {
      mask := MethodMask(data, method_, k, contamination, iso);
    }
    if mask.None? {
      return [];
    }
    outliers := Select(rows, mask.value);
  }

  // ---------------------------------------------------------------------------
  // What the rules promise
  // ---------------------------------------------------------------------------

  /** Every branch returns a sub-selection of the input rows. */
  lemma OutliersAreRows(rows: seq<Observation>, methodName: string, k: real, contamination: real,
                        analysisType: string, iso: IsolationOracle)
    ensures multiset(DetectedOutliers(rows, methodName, k, contamination, analysisType, iso)) <= multiset(rows)
  {
    if analysisType == "temporal" {
      var series := MonthlySeries(rows);
      var months := FlaggedMonths(series, MethodMask(Totals(series), TemporalMethod(ParseMethod(methodName)), k, contamination, iso));
      FilterSelects(rows, (o: Observation) => o.month in months);
    } else {
      var mask := MethodMask(Costs(rows), ParseMethod(methodName), k, contamination, iso);
      if mask.Some? {
        SelectMembers(rows, mask.value);
      }
    }
  }

  /** Record-level "IQR Method": nothing unless the IQR is positive, and then
      exactly the rows strictly outside [Q1 - k*IQR, Q3 + k*IQR]. */
  lemma RecordIqrRule(rows: seq<Observation>, k: real, contamination: real, analysisType: string, iso: IsolationOracle)
    requires analysisType != "temporal"
    ensures var r := DetectedOutliers(rows, "IQR Method", k, contamination, analysisType, iso);
      var f := IqrFence(Costs(rows), k);
      (f.None? ==> r == []) &&
      (f.Some? ==>
        (forall i :: 0 <= i < |rows| && Outside(rows[i].cost, f.value) ==> rows[i] in r) &&
        (forall x :: x in r ==> x in rows && Outside(x.cost, f.value)) &&
        (forall x :: multiset(r)[x] == if Outside(x.cost, f.value) then multiset(rows)[x] else 0))
  {
    var f := IqrFence(Costs(rows), k);
    if f.Some? {
      var mask := FenceMask(Costs(rows), f.value);
      SelectMembers(rows, mask);
      var outside := (o: Observation) => Outside(o.cost, f.value);
      SelectIsFilter(rows, mask, outside);
      FilterSelects(rows, outside);
    }
  }

  /** Record-level "Z-Score": nothing unless the standard deviation is positive,
      and then exactly the rows whose z-score exceeds k. */
  lemma RecordZScoreRule(rows: seq<Observation>, k: real, contamination: real, analysisType: string, iso: IsolationOracle)
    requires analysisType != "temporal"
    ensures var r := DetectedOutliers(rows, "Z-Score", k, contamination, analysisType, iso);
      var costs := Costs(rows);
      (!SpreadPositive(costs) ==> r == []) &&
      (SpreadPositive(costs) ==>
        (forall i :: 0 <= i < |rows| && ZExceeds(costs, rows[i].cost, k) ==> rows[i] in r) &&
        (forall x :: x in r ==> x in rows && ZExceeds(costs, x.cost, k)) &&
        (forall x :: multiset(r)[x] == if ZExceeds(costs, x.cost, k) then multiset(rows)[x] else 0))
  {
    var costs := Costs(rows);
    if SpreadPositive(costs) {
      SelectMembers(rows, ZMask(costs, k));
      var exceeds := (o: Observation) => ZExceeds(costs, o.cost, k);
      SelectIsFilter(rows, ZMask(costs, k), exceeds);
      FilterSelects(rows, exceeds);
    }
  }

  lemma SqMonotone(a: real, b: real)
    requires 0.0 <= a && 0.0 <= b
    ensures a > b <==> Sq(a) > Sq(b)
  {
    if a > b {
      calc {
        Sq(a);
        a * a;
      > { assert a * a > b * a; }
        b * a;
      >= { assert b * a >= b * b; }
        b * b;
        Sq(b);
      }
    } else {
      calc {
        Sq(b);
        b * b;
      >= { assert b * b >= a * b; }
        a * b;
      >= { assert a * b >= a * a; }
        a * a;
        Sq(a);
      }
    }
  }

  lemma SqProduct(a: real, b: real)
    ensures Sq(a * b) == Sq(a) * Sq(b)
  {
  }

  lemma SqAbs(a: real)
    ensures Sq(Abs(a)) == Sq(a)
  {
  }

  /** The rule without the square root agrees with the z-score itself: for the
      standard deviation s (s > 0, s^2 the sample variance), a value's
      |x - mean| / s exceeds k exactly when ZExceeds holds. */
  lemma ZExceedsIsZScore(values: seq<real>, x: real, k: real, s: real)
    requires SpreadPositive(values) && s > 0.0 && Sq(s) == SampleVariance(values)
    ensures ZExceeds(values, x, k) <==> Abs(x - Mean(values)) / s > k
  {
    var a := Abs(x - Mean(values));
    var z := a / s;
    assert z * s == a;
    DivideMonotone(0.0, a, s);
    if k >= 0.0 {
      assert z > k <==> a > k * s by {
        if z > k {
          assert z * s > k * s;
        } else {
          assert z * s <= k * s;
        }
      }
      SqMonotone(a, k * s);
      SqProduct(k, s);
      SqAbs(x - Mean(values));
    }
  }

  /** The vote: a value is flagged exactly when at least two of the rules whose
      guards hold flag it; with a single eligible rule nothing is flagged, and
      with none the branch returns an empty frame. */
  lemma EnsembleMajority(values: seq<real>, k: real, contamination: real, iso: IsolationOracle)
    ensures var mask := EnsembleMask(values, k, contamination, iso);
      (mask.None? <==> Voters(values, k) == 0) &&
      (mask.Some? ==> (|mask.value| == |values| &&
        forall i :: 0 <= i < |values| ==> (mask.value[i] <==> Votes(values, k, contamination, iso, i) >= 2))) &&
      (Voters(values, k) == 1 ==> forall i :: 0 <= i < |values| ==> !mask.value[i])
  {
    var mask := EnsembleMask(values, k, contamination, iso);
    if Voters(values, k) == 1 {
      forall i | 0 <= i < |values| ensures Votes(values, k, contamination, iso, i) <= 1 {
        VotesAtMostVoters(values, k, contamination, iso, i);
      }
    }
  }

  lemma VotesAtMostVoters(values: seq<real>, k: real, contamination: real, iso: IsolationOracle, i: nat)
    requires i < |values|
    ensures Votes(values, k, contamination, iso, i) <= Voters(values, k)
  {
  }

  /** A value flagged by all three rules is an outlier; one flagged by the
      isolation forest alone is not. */
  lemma EnsembleUnanimousAndLone(values: seq<real>, k: real, contamination: real, iso: IsolationOracle, i: nat)
    requires i < |values|
    ensures Vote(IqrRule(values, k), i) == 1 && Vote(ZRule(values, k), i) == 1 && Vote(IsoRule(values, contamination, iso), i) == 1 ==>
      EnsembleMask(values, k, contamination, iso).Some? && EnsembleMask(values, k, contamination, iso).value[i]
    ensures Vote(IqrRule(values, k), i) == 0 && Vote(ZRule(values, k), i) == 0 ==>
      EnsembleMask(values, k, contamination, iso).None? || !EnsembleMask(values, k, contamination, iso).value[i]
  {
  }

  /** A column of identical values has no IQR and no spread, so no rule other
      than the isolation forest flags anything in it. */
  lemma ConstantColumnNoOutliers(values: seq<real>, m: DetectionMethod, k: real, contamination: real, iso: IsolationOracle)
    requires Constant(values) && m != IsolationForest
    ensures var mask := MethodMask(values, m, k, contamination, iso);
      mask.None? || forall i :: 0 <= i < |values| ==> !mask.value[i]
  {
    if values != [] {
      assert AllEqual(values, values[0]);
      QuantileOfConstant(values, values[0], 0.25);
      QuantileOfConstant(values, values[0], 0.75);
    }
    SpreadPositiveIff(values);
    assert IqrFence(values, k).None? && !SpreadPositive(values);
    if m == Ensemble {
      EnsembleMajority(values, k, contamination, iso);
    }
  }

  /** Record level: when every row costs the same, only "Isolation Forest" can report anything. */
  lemma RecordConstantCostsNoOutliers(rows: seq<Observation>, methodName: string, k: real, contamination: real,
                                      analysisType: string, iso: IsolationOracle)
    requires analysisType != "temporal" && methodName != "Isolation Forest" && Constant(Costs(rows))
    ensures DetectedOutliers(rows, methodName, k, contamination, analysisType, iso) == []
  {
    var mask := MethodMask(Costs(rows), ParseMethod(methodName), k, contamination, iso);
    ConstantColumnNoOutliers(Costs(rows), ParseMethod(methodName), k, contamination, iso);
    if mask.Some? {
      SelectNone(rows, mask.value);
    }
  }

  /** A month is flagged exactly when the mask flags its entry of the series. */
  lemma FlaggedMonthsIff(series: seq<MonthTotal>, mask: Option<seq<bool>>)
    requires mask.Some? ==> |mask.value| == |series|
    ensures forall m :: m in FlaggedMonths(series, mask) <==>
      mask.Some? && exists i :: 0 <= i < |series| && mask.value[i] && series[i].month == m
  {
    if mask.Some? {
      SelectMembers(series, mask.value);
      var picked := Select(series, mask.value);
      forall m | m in FlaggedMonths(series, mask)
        ensures exists i :: 0 <= i < |series| && mask.value[i] && series[i].month == m
      {
        var j :| 0 <= j < |picked| && picked[j].month == m;
        assert picked[j] in picked;
      }
      forall i | 0 <= i < |series| && mask.value[i]
        ensures series[i].month in FlaggedMonths(series, mask)
      {
        var j :| 0 <= j < |picked| && picked[j] == series[i];
        assert SeriesMonths(picked)[j] == series[i].month;
      }
    }
  }

  /** Temporal mode returns exactly the records whose month the rule flagged
      on the monthly totals. */
  lemma TemporalExpandsMonths(rows: seq<Observation>, methodName: string, k: real, contamination: real,
                              iso: IsolationOracle)
    ensures var series := MonthlySeries(rows);
      var mask := MethodMask(Totals(series), TemporalMethod(ParseMethod(methodName)), k, contamination, iso);
      var r := DetectedOutliers(rows, methodName, k, contamination, "temporal", iso);
      (forall x :: x in r <==>
        x in rows && mask.Some? && exists i :: 0 <= i < |series| && mask.value[i] && series[i].month == x.month) &&
      (forall x :: multiset(r)[x] ==
        if mask.Some? && exists i :: 0 <= i < |series| && mask.value[i] && series[i].month == x.month
        then multiset(rows)[x] else 0)
  {
    var series := MonthlySeries(rows);
    var mask := MethodMask(Totals(series), TemporalMethod(ParseMethod(methodName)), k, contamination, iso);
    var months := FlaggedMonths(series, mask);
    FlaggedMonthsIff(series, mask);
    FilterExact(rows, months);
    FilterSelects(rows, (o: Observation) => o.month in months);
  }

  lemma FilterExact(rows: seq<Observation>, months: seq<YearMonth>)
    ensures forall x :: x in Filter(rows, (o: Observation) => o.month in months) <==> x in rows && x.month in months
  {
    var r := Filter(rows, (o: Observation) => o.month in months);
    FilterSelects(rows, (o: Observation) => o.month in months);
    forall x | x in r ensures x in rows {
      assert x in multiset(r);
    }
  }

  /** In temporal mode "Z-Score" names no branch of its own and runs the ensemble. */
  lemma TemporalZScoreIsEnsemble(rows: seq<Observation>, k: real, contamination: real, iso: IsolationOracle)
    ensures DetectedOutliers(rows, "Z-Score", k, contamination, "temporal", iso) ==
            DetectedOutliers(rows, "Ensemble", k, contamination, "temporal", iso)
  {
  }
}
