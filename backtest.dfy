/** `gen_real_pred_errors`: for every (regional office, BNF chapter) pair, hold
    out the last `test_periods` months of the monthly cost series, forecast them
    with train_arima from the months before, and score the forecast. */
module Backtest {
  import opened Wrappers
  import opened Stats
  import opened Dataset
  import opened Forecaster

  // ---------------------------------------------------------------------------
  // BNF_CATEGORY: bnf_code.split(':')[0].strip()
  // ---------------------------------------------------------------------------

  /** Python's `str.isspace` on one character. */
  predicate IsPythonSpace(c: char)
  {
    c == ' ' || '\t' <= c <= '\r' || '\U{1C}' <= c <= '\U{1F}' || c == '\U{85}' || c == '\U{A0}' ||
    c == '\U{1680}' || '\U{2000}' <= c <= '\U{200A}' || c == '\U{2028}' || c == '\U{2029}' ||
    c == '\U{202F}' || c == '\U{205F}' || c == '\U{3000}'
  }

  /** `s.split(':')[0]`: the text before the first colon, or all of s. */
  function BeforeColon(s: string): string
  {
    if s == [] || s[0] == ':' then [] else [s[0]] + BeforeColon(s[1..])
  }

  lemma {:induction false} BeforeColonShape(s: string)
    ensures BeforeColon(s) <= s && ':' !in BeforeColon(s)
    ensures |BeforeColon(s)| < |s| ==> s[|BeforeColon(s)|] == ':'
  {
    if s != [] && s[0] != ':' {
      BeforeColonShape(s[1..]);
    }
  }

  function TrimStart(s: string): string
  {
    if s != [] && IsPythonSpace(s[0]) then TrimStart(s[1..]) else s
  }

  /** What TrimStart removes is white space. */
  lemma {:induction false} TrimStartRemovesSpaces(s: string)
    ensures |TrimStart(s)| <= |s|
    ensures forall i :: 0 <= i < |s| - |TrimStart(s)| ==> IsPythonSpace(s[i])
  {
    if s != [] && IsPythonSpace(s[0]) {
      var t := s[1..];
      TrimStartRemovesSpaces(t);
      forall i | 0 <= i < |s| - |TrimStart(s)| ensures IsPythonSpace(s[i]) {
        if i > 0 {
          assert s[i] == t[i - 1];
        }
      }
    }
  }

  lemma {:induction false} TrimStartShape(s: string)
    ensures var r := TrimStart(s);
      |r| <= |s| && r == s[|s| - |r|..] &&
      (r == [] || !IsPythonSpace(r[0])) &&
      (forall i :: 0 <= i < |s| - |r| ==> IsPythonSpace(s[i]))
  {
    TrimStartRemovesSpaces(s);
    if s != [] && IsPythonSpace(s[0]) {
      var t := s[1..];
      TrimStartShape(t);
      assert t[|t| - |TrimStart(t)|..] == s[|s| - |TrimStart(s)|..];
    }
  }

  function TrimEnd(s: string): string
  {
    if s != [] && IsPythonSpace(s[|s| - 1]) then TrimEnd(s[..|s| - 1]) else s
  }

  lemma {:induction false} TrimEndShape(s: string)
    ensures var r := TrimEnd(s);
      r <= s &&
      (r == [] || !IsPythonSpace(r[|r| - 1])) &&
      (forall i :: |r| <= i < |s| ==> IsPythonSpace(s[i]))
  {
    if s != [] && IsPythonSpace(s[|s| - 1]) {
      TrimEndShape(s[..|s| - 1]);
    }
  }

  /** `str.strip()` with no argument. */
  function Strip(s: string): string
  {
    TrimEnd(TrimStart(s))
  }

  ghost predicate IsStripped(s: string)
  {
    s == [] || (!IsPythonSpace(s[0]) && !IsPythonSpace(s[|s| - 1]))
  }

  /** The category code reported for a BNF chapter label such as "02: Cardiovascular System". */
  function CategoryCode(chapter: string): string
  {
    Strip(BeforeColon(chapter))
  }

  /** A category code holds no colon and has no white space at either end; it
      is the label's text before the first colon with the surrounding white
      space removed. */
  lemma CategoryCodeShape(chapter: string)
    ensures ':' !in CategoryCode(chapter)
    ensures IsStripped(CategoryCode(chapter))
  {
    CategoryCodeNoColon(chapter);
    StripShape(BeforeColon(chapter));
  }

  lemma CategoryCodeNoColon(chapter: string)
    ensures ':' !in CategoryCode(chapter)
  {
    var b := BeforeColon(chapter);
    var t := TrimStart(b);
    var r := TrimEnd(t);
    BeforeColonShape(chapter);
    TrimStartShape(b);
    TrimEndShape(t);
    var k := |b| - |t|;
    assert r == t[..|r|] == b[k..k + |r|];
    AbsentFromSlice(b, ':', k, k + |r|);
  }

  lemma StripShape(s: string)
    ensures IsStripped(Strip(s))
  {
    var t := TrimStart(s);
    var r := TrimEnd(t);
    TrimStartShape(s);
    TrimEndShape(t);
    if r != [] {
      assert r[0] == t[0];
    }
  }

  lemma AbsentFromSlice<T>(s: seq<T>, x: T, lo: nat, hi: nat)
    requires lo <= hi <= |s| && x !in s
    ensures x !in s[lo..hi]
  {
    forall i | lo <= i < hi ensures s[i] != x {
      assert s[i] in s;
    }
  }

  /** Deriving the code of a code changes nothing. */
  lemma CategoryCodeIdempotent(chapter: string)
    ensures CategoryCode(CategoryCode(chapter)) == CategoryCode(chapter)
  {
    var c := CategoryCode(chapter);
    CategoryCodeShape(chapter);
    NoColonUnchanged(c);
    StrippedUnchanged(c);
  }

  lemma {:induction false} NoColonUnchanged(s: string)
    requires ':' !in s
    ensures BeforeColon(s) == s
  {
    if s != [] {
      assert s[0] != ':';
      assert ':' !in s[1..];
      NoColonUnchanged(s[1..]);
    }
  }

  lemma StrippedUnchanged(s: string)
    requires IsStripped(s)
    ensures Strip(s) == s
  {
    assert TrimStart(s) == s;
    if s != [] {
      assert TrimEnd(s) == s;
    }
  }

  // ---------------------------------------------------------------------------
  // Scoring one held-out forecast
  // ---------------------------------------------------------------------------

  /** One row of the returned frame; `mape` is None where numpy yields NaN. */
  datatype ErrorRecord = ErrorRecord(
    region: string, category: string, meanActual: real, mae: real, bias: real, mape: Option<real>)

  /** |y_true - y_pred| elementwise. */
  function AbsoluteErrors(actual: seq<real>, predicted: seq<real>): (r: seq<real>)
    requires |actual| == |predicted|
    ensures |r| == |actual| && forall i :: 0 <= i < |r| ==> r[i] == Abs(actual[i] - predicted[i])
  {
    seq(|actual|, i requires 0 <= i < |actual| => Abs(actual[i] - predicted[i]))
  }

  /** y_pred - y_true elementwise. */
  function Deviations(actual: seq<real>, predicted: seq<real>): (r: seq<real>)
    requires |actual| == |predicted|
    ensures |r| == |actual| && forall i :: 0 <= i < |r| ==> r[i] == predicted[i] - actual[i]
  {
    seq(|actual|, i requires 0 <= i < |actual| => predicted[i] - actual[i])
  }

  predicate NoZeroActual(actual: seq<real>)
  {
    forall i :: 0 <= i < |actual| ==> actual[i] != 0.0
  }

  /** |(y_true - y_pred) / y_true| elementwise. */
  function RelativeErrors(actual: seq<real>, predicted: seq<real>): (r: seq<real>)
    requires |actual| == |predicted| && NoZeroActual(actual)
    ensures |r| == |actual| && forall i :: 0 <= i < |r| ==> r[i] == Abs((actual[i] - predicted[i]) / actual[i])
  {
    seq(|actual|, i requires 0 <= i < |actual| => Abs((actual[i] - predicted[i]) / actual[i]))
  }

  /** The error record of one pair: mean actual, MAE, bias (forecast minus
      actual) and MAPE in percent, which is NaN when some actual is zero. */
  function Score(region: string, category: string, actual: seq<real>, predicted: seq<real>): ErrorRecord
    requires |actual| == |predicted| > 0
  {
    ErrorRecord(
      region, category, Mean(actual),
      Mean(AbsoluteErrors(actual, predicted)),
      Mean(Deviations(actual, predicted)),
      if NoZeroActual(actual) then Some(Mean(RelativeErrors(actual, predicted)) * 100.0) else None)
  }

  /** The facts every error record satisfies. */
  ghost predicate WellFormed(e: ErrorRecord)
  {
    e.mae >= 0.0 && Abs(e.bias) <= e.mae && (e.mape.Some? ==> e.mape.value >= 0.0)
  }

  /** MAE is never negative and bounds the size of the bias; MAPE is defined
      exactly when no actual value is zero, and is then never negative. */
  lemma ScoreBounds(region: string, category: string, actual: seq<real>, predicted: seq<real>)
    requires |actual| == |predicted| > 0
    ensures WellFormed(Score(region, category, actual, predicted))
    ensures Score(region, category, actual, predicted).mape.Some? <==> NoZeroActual(actual)
  {
    var abs := AbsoluteErrors(actual, predicted);
    var dev := Deviations(actual, predicted);
    MeanNonNegative(abs);
    forall i | 0 <= i < |dev| ensures Abs(dev[i]) <= abs[i] {
      assert dev[i] == -(actual[i] - predicted[i]);
    }
    MeanAbsBound(dev, abs);
    if NoZeroActual(actual) {
      MeanNonNegative(RelativeErrors(actual, predicted));
    }
  }

  /** MAE is zero exactly when the forecast hits every held-out month. */
  lemma ScoreMaeZeroIff(region: string, category: string, actual: seq<real>, predicted: seq<real>)
    requires |actual| == |predicted| > 0
    ensures Score(region, category, actual, predicted).mae == 0.0 <==> actual == predicted
  {
    var abs := AbsoluteErrors(actual, predicted);
    var n := |abs| as real;
    SumZeroMeansAllZero(abs);
    assert Mean(abs) == 0.0 <==> Sum(abs) == 0.0 by {
      assert Sum(abs) == Mean(abs) * n;
    }
    if AllEqual(abs, 0.0) {
      assert forall i :: 0 <= i < |actual| ==> actual[i] == predicted[i];
    }
    if actual == predicted {
      assert AllEqual(abs, 0.0);
    }
  }

  /** A perfect forecast has no bias and, when defined, a MAPE of zero. */
  lemma ScorePerfect(region: string, category: string, actual: seq<real>)
    requires |actual| > 0
    ensures var e := Score(region, category, actual, actual);
      e.mae == 0.0 && e.bias == 0.0 && (e.mape.Some? ==> e.mape.value == 0.0)
      && e.meanActual == Mean(actual)
  {
    ScoreMaeZeroIff(region, category, actual, actual);
    MeanOfConstant(Deviations(actual, actual), 0.0);
    if NoZeroActual(actual) {
      var rel := RelativeErrors(actual, actual);
      assert forall i :: 0 <= i < |rel| ==> rel[i] == Abs(0.0 / actual[i]);
      MeanOfConstant(rel, 0.0);
    }
  }

  // ---------------------------------------------------------------------------
  // One pair: split, forecast, score
  // ---------------------------------------------------------------------------

  /** `ts.iloc[:-T]` and `ts.iloc[-T:]`.  With T = 0 the slice `[:-0]` is empty
      and `[-0:]` is the whole series. */
  function SplitTrain(series: seq<MonthTotal>, testPeriods: nat): (train: seq<MonthTotal>)
    requires |series| >= testPeriods
    ensures train <= series
    ensures |train| == if testPeriods == 0 then 0 else |series| - testPeriods
  {
    if testPeriods == 0 then [] else series[..|series| - testPeriods]
  }

  function SplitTest(series: seq<MonthTotal>, testPeriods: nat): (test: seq<MonthTotal>)
    requires |series| >= testPeriods
    ensures testPeriods > 0 ==> |test| == testPeriods && SplitTrain(series, testPeriods) + test == series
    ensures testPeriods == 0 ==> test == series && SplitTrain(series, testPeriods) == []
  {
    if testPeriods == 0 then series else series[|series| - testPeriods..]
  }

  /** The monthly series of one (regional office, BNF chapter) pair. */
  function PairSeries(df: seq<Observation>, region: string, chapter: string): seq<MonthTotal>
  {
    MonthlySeries(InCategory(InRegion(df, region), chapter))
  }

  function Predictions(rows: seq<ForecastRow>): (r: seq<real>)
    ensures |r| == |rows| && forall i :: 0 <= i < |rows| ==> r[i] == rows[i].forecast
  {
    seq(|rows|, i requires 0 <= i < |rows| => rows[i].forecast)
  }

  /** The record a pair contributes, or None when the loop `continue`s past it. */
  function PairRecord(df: seq<Observation>, region: string, chapter: string, testPeriods: nat,
                      fit: FitOracle, forecast: ForecastOracle): Option<ErrorRecord>
  {
    var series := PairSeries(df, region, chapter);
    if |series| < testPeriods + 3 then None
    else
      var train := SplitTrain(series, testPeriods);
      var test := SplitTest(series, testPeriods);
      match Forecast(train, testPeriods, fit, forecast)
      case Err(_) => None
      case Ok(rows) =>
        if |rows| != |test| then None
        else Some(Score(region, CategoryCode(chapter), Totals(test), Predictions(rows)))
  }

  function AsSeq<T>(o: Option<T>): (r: seq<T>)
    ensures |r| == if o.Some? then 1 else 0
  {
    match o
    case None => []
    case Some(x) => [x]
  }

  function CategoryRecords(df: seq<Observation>, region: string, chapters: seq<string>, testPeriods: nat,
                           fit: FitOracle, forecast: ForecastOracle): seq<ErrorRecord>
  {
    if chapters == [] then []
    else
      CategoryRecords(df, region, chapters[..|chapters| - 1], testPeriods, fit, forecast)
      + AsSeq(PairRecord(df, region, chapters[|chapters| - 1], testPeriods, fit, forecast))
  }

  /** The BNF chapters of one office, in order of first appearance. */
  function ChaptersIn(df: seq<Observation>, region: string): seq<string>
  {
    Distinct(Categories(InRegion(df, region)))
  }

  function RegionRecords(df: seq<Observation>, regions: seq<string>, testPeriods: nat,
                         fit: FitOracle, forecast: ForecastOracle): seq<ErrorRecord>
  {
    if regions == [] then []
    else
      var region := regions[|regions| - 1];
      RegionRecords(df, regions[..|regions| - 1], testPeriods, fit, forecast)
      + CategoryRecords(df, region, ChaptersIn(df, region), testPeriods, fit, forecast)
  }

  /** The frame gen_real_pred_errors returns: offices in order of first
      appearance, and within each office its chapters in order of first appearance. */
  function BacktestErrors(df: seq<Observation>, testPeriods: nat, fit: FitOracle, forecast: ForecastOracle)
    : seq<ErrorRecord>
  {
    RegionRecords(df, Distinct(Regions(df)), testPeriods, fit, forecast)
  }

  /** The body of the inner loop: one pair's series, split, forecast and score. */
  method ScorePair(df: seq<Observation>, regionData: seq<Observation>, region: string, chapter: string,
                   testPeriods: nat, fit: FitOracle, forecast: ForecastOracle)
    returns (record: Option<ErrorRecord>)
    requires regionData == InRegion(df, region)
    ensures record == PairRecord(df, region, chapter, testPeriods, fit, forecast)
  {
    var series := MonthlySeries(InCategory(regionData, chapter));
    if |series| < testPeriods + 3 {
      return None;
    }
    var train := SplitTrain(series, testPeriods);
    var test := SplitTest(series, testPeriods);
    var result := TrainArima(train, testPeriods, fit, forecast);
    if result.Err? {
      return None;
    }
    if |result.value| != |test| {
      return None;
    }
    record := Some(Score(region, CategoryCode(chapter), Totals(test), Predictions(result.value)));
  }

  lemma CategoryRecordsStep(df: seq<Observation>, region: string, chapters: seq<string>, j: nat,
                            testPeriods: nat, fit: FitOracle, forecast: ForecastOracle)
    requires j < |chapters|
    ensures CategoryRecords(df, region, chapters[..j + 1], testPeriods, fit, forecast) ==
      CategoryRecords(df, region, chapters[..j], testPeriods, fit, forecast) +
      AsSeq(PairRecord(df, region, chapters[j], testPeriods, fit, forecast))
  {
    assert chapters[..j + 1][..j] == chapters[..j];
  }

  lemma RegionRecordsStep(df: seq<Observation>, regions: seq<string>, i: nat,
                          testPeriods: nat, fit: FitOracle, forecast: ForecastOracle)
    requires i < |regions|
    ensures RegionRecords(df, regions[..i + 1], testPeriods, fit, forecast) ==
      RegionRecords(df, regions[..i], testPeriods, fit, forecast) +
      CategoryRecords(df, regions[i], ChaptersIn(df, regions[i]), testPeriods, fit, forecast)
  {
    assert regions[..i + 1][..i] == regions[..i];
  }

  /** The inner loop: the records of one office's chapters, in order of first appearance. */
  method ScoreRegion(df: seq<Observation>, region: string, testPeriods: nat, fit: FitOracle, forecast: ForecastOracle)
    returns (records: seq<ErrorRecord>)
    ensures records == CategoryRecords(df, region, ChaptersIn(df, region), testPeriods, fit, forecast)
  {
    records := [];
    var regionData := InRegion(df, region);
    var chapters := Distinct(Categories(regionData));
    for j := 0 to |chapters|
      invariant records == CategoryRecords(df, region, chapters[..j], testPeriods, fit, forecast)
    {
      var record := ScorePair(df, regionData, region, chapters[j], testPeriods, fit, forecast);
      CategoryRecordsStep(df, region, chapters, j, testPeriods, fit, forecast);
      records := records + AsSeq(record);
    }
    assert chapters[..|chapters|] == chapters;
  }

  method GenRealPredErrors(df: seq<Observation>, testPeriods: nat, fit: FitOracle, forecast: ForecastOracle)
    returns (errors: seq<ErrorRecord>)
    ensures errors == BacktestErrors(df, testPeriods, fit, forecast)
  {
    errors := [];
    var regions := Distinct(Regions(df));
    for i := 0 to |regions|
      invariant errors == RegionRecords(df, regions[..i], testPeriods, fit, forecast)
    {
      var records := ScoreRegion(df, regions[i], testPeriods, fit, forecast);
      RegionRecordsStep(df, regions, i, testPeriods, fit, forecast);
      errors := errors + records;
    }
    assert regions[..|regions|] == regions;
  }

  // ---------------------------------------------------------------------------
  // What the backtest promises
  // ---------------------------------------------------------------------------

  /** A pair is scored exactly when its series has at least T + 3 months, T is
      at least one, and the forecast succeeds; the training part then has at
      least three months, so the "insufficient data" error never arises, and the
      length comparison with the test part never skips a pair. */
  lemma PairRecordIff(df: seq<Observation>, region: string, chapter: string, testPeriods: nat,
                      fit: FitOracle, forecast: ForecastOracle)
    ensures var series := PairSeries(df, region, chapter);
      PairRecord(df, region, chapter, testPeriods, fit, forecast).Some? <==>
        testPeriods >= 1 && |series| >= testPeriods + 3 &&
        Forecast(SplitTrain(series, testPeriods), testPeriods, fit, forecast).Ok?
    ensures var series := PairSeries(df, region, chapter);
      testPeriods >= 1 && |series| >= testPeriods + 3 ==>
        Forecast(SplitTrain(series, testPeriods), testPeriods, fit, forecast) != Err(InsufficientData)
  {
  }

  /** What a scored pair reports: the office, the chapter's code, the mean of the
      last T monthly totals, and a well-formed error triple. */
  lemma PairRecordContents(df: seq<Observation>, region: string, chapter: string, testPeriods: nat,
                           fit: FitOracle, forecast: ForecastOracle)
    requires PairRecord(df, region, chapter, testPeriods, fit, forecast).Some?
    ensures var e := PairRecord(df, region, chapter, testPeriods, fit, forecast).value;
      var series := PairSeries(df, region, chapter);
      testPeriods >= 1 && |series| >= testPeriods + 3 &&
      e.region == region && e.category == CategoryCode(chapter) &&
      e.meanActual == Mean(Totals(series[|series| - testPeriods..])) &&
      WellFormed(e)
  {
    var series := PairSeries(df, region, chapter);
    var test := SplitTest(series, testPeriods);
    var rows := Forecast(SplitTrain(series, testPeriods), testPeriods, fit, forecast).value;
    ScoreBounds(region, CategoryCode(chapter), Totals(test), Predictions(rows));
  }

  /** What holds of every row of the frame: it is well formed, names an office
      of the data and the code of one of that office's chapters, and was
      produced with at least one held-out month. */
  ghost predicate Grounded(df: seq<Observation>, testPeriods: nat, e: ErrorRecord)
  {
    WellFormed(e) && testPeriods >= 1 && e.region in Regions(df) &&
    exists chapter :: chapter in Categories(InRegion(df, e.region)) && e.category == CategoryCode(chapter)
  }

  lemma PairRecordGrounded(df: seq<Observation>, region: string, chapter: string, testPeriods: nat,
                           fit: FitOracle, forecast: ForecastOracle)
    requires region in Regions(df) && chapter in Categories(InRegion(df, region))
    requires PairRecord(df, region, chapter, testPeriods, fit, forecast).Some?
    ensures Grounded(df, testPeriods, PairRecord(df, region, chapter, testPeriods, fit, forecast).value)
  {
    PairRecordContents(df, region, chapter, testPeriods, fit, forecast);
  }

  lemma {:induction false} CategoryRecordsGrounded(df: seq<Observation>, region: string, chapters: seq<string>,
      testPeriods: nat, fit: FitOracle, forecast: ForecastOracle)
    requires region in Regions(df)
    requires forall i :: 0 <= i < |chapters| ==> chapters[i] in Categories(InRegion(df, region))
    ensures forall k :: 0 <= k < |CategoryRecords(df, region, chapters, testPeriods, fit, forecast)| ==>
      Grounded(df, testPeriods, CategoryRecords(df, region, chapters, testPeriods, fit, forecast)[k])
  {
    if chapters != [] {
      var n := |chapters| - 1;
      var pre := CategoryRecords(df, region, chapters[..n], testPeriods, fit, forecast);
      var p := PairRecord(df, region, chapters[n], testPeriods, fit, forecast);
      var all := CategoryRecords(df, region, chapters, testPeriods, fit, forecast);
      CategoryRecordsGrounded(df, region, chapters[..n], testPeriods, fit, forecast);
      assert all == pre + AsSeq(p);
      forall k | 0 <= k < |all| ensures Grounded(df, testPeriods, all[k]) {
        if k < |pre| {
          assert all[k] == pre[k];
        } else {
          PairRecordGrounded(df, region, chapters[n], testPeriods, fit, forecast);
          assert all[k] == p.value;
        }
      }
    }
  }

  lemma {:induction false} RegionRecordsGrounded(df: seq<Observation>, regions: seq<string>,
      testPeriods: nat, fit: FitOracle, forecast: ForecastOracle)
    requires forall i :: 0 <= i < |regions| ==> regions[i] in Regions(df)
    ensures forall k :: 0 <= k < |RegionRecords(df, regions, testPeriods, fit, forecast)| ==>
      Grounded(df, testPeriods, RegionRecords(df, regions, testPeriods, fit, forecast)[k])
  {
    if regions != [] {
      var n := |regions| - 1;
      RegionRecordsGrounded(df, regions[..n], testPeriods, fit, forecast);
      RegionRecordsStep(df, regions, n, testPeriods, fit, forecast);
      assert regions[..n + 1] == regions;
      DistinctMembers(Categories(InRegion(df, regions[n])));
      CategoryRecordsGrounded(df, regions[n], ChaptersIn(df, regions[n]), testPeriods, fit, forecast);
    }
  }

  /** Every row of the backtest frame is well formed, names an office of the
      data and the code of one of that office's BNF chapters. */
  lemma BacktestRecordsGrounded(df: seq<Observation>, testPeriods: nat, fit: FitOracle, forecast: ForecastOracle)
    ensures forall k :: 0 <= k < |BacktestErrors(df, testPeriods, fit, forecast)| ==>
      Grounded(df, testPeriods, BacktestErrors(df, testPeriods, fit, forecast)[k])
    ensures BacktestErrors(df, testPeriods, fit, forecast) != [] ==> testPeriods >= 1
  {
    DistinctMembers(Regions(df));
    RegionRecordsGrounded(df, Distinct(Regions(df)), testPeriods, fit, forecast);
    var errors := BacktestErrors(df, testPeriods, fit, forecast);
    if errors != [] {
      assert Grounded(df, testPeriods, errors[0]);
    }
  }

  /** The positions holding a value, in increasing order. */
  function SomePositions<T>(os: seq<Option<T>>): (idx: seq<nat>)
    ensures |idx| == |Somes(os)|
  {
    if os == [] then []
    else
      var n := |os| - 1;
      SomePositions(os[..n]) + if os[n].Some? then [n] else []
  }

  lemma {:induction false} SomePositionsShape<T>(os: seq<Option<T>>)
    ensures forall j :: 0 <= j < |SomePositions(os)| ==> SomePositions(os)[j] < |os|
    ensures forall j, j' :: 0 <= j < j' < |SomePositions(os)| ==> SomePositions(os)[j] < SomePositions(os)[j']
  {
    if os != [] {
      var n := |os| - 1;
      SomePositionsShape(os[..n]);
      var pre := SomePositions(os[..n]);
      assert |os[..n]| == n;
      assert forall j :: 0 <= j < |pre| ==> pre[j] < n;
    }
  }

  lemma {:induction false} SomePositionsPick<T>(os: seq<Option<T>>)
    ensures forall j :: 0 <= j < |SomePositions(os)| ==>
      SomePositions(os)[j] < |os| && os[SomePositions(os)[j]] == Some(Somes(os)[j])
  {
    if os != [] {
      var n := |os| - 1;
      var init := os[..n];
      SomePositionsPick(init);
      SomePositionsShape(init);
      var pre, idx := SomePositions(init), SomePositions(os);
      forall j | 0 <= j < |idx| ensures idx[j] < |os| && os[idx[j]] == Some(Somes(os)[j]) {
        if j < |pre| {
          assert idx[j] == pre[j] && os[pre[j]] == init[pre[j]];
          assert Somes(os)[j] == Somes(init)[j];
        }
      }
    }
  }

  lemma {:induction false} SomePositionsCover<T>(os: seq<Option<T>>)
    ensures forall i :: 0 <= i < |os| && os[i].Some? ==> i in SomePositions(os)
  {
    if os != [] {
      var n := |os| - 1;
      var init := os[..n];
      SomePositionsCover(init);
      forall i | 0 <= i < n && os[i].Some? ensures i in SomePositions(os) {
        assert init[i] == os[i];
      }
    }
  }

  /** The present values are those at increasing positions idx, and every
      position holding a value is among them. */
  lemma SomesIndexed<T>(os: seq<Option<T>>) returns (idx: seq<nat>)
    ensures var r := Somes(os);
      |idx| == |r| &&
      (forall j :: 0 <= j < |idx| ==> idx[j] < |os| && os[idx[j]] == Some(r[j])) &&
      (forall j, j' :: 0 <= j < j' < |idx| ==> idx[j] < idx[j']) &&
      (forall i :: 0 <= i < |os| && os[i].Some? ==> i in idx)
  {
    idx := SomePositions(os);
    SomePositionsShape(os);
    SomePositionsPick(os);
    SomePositionsCover(os);
  }

  /** Each chapter's record, or None when it is skipped. */
  function ChapterRecords(df: seq<Observation>, region: string, chapters: seq<string>, testPeriods: nat,
                          fit: FitOracle, forecast: ForecastOracle): (os: seq<Option<ErrorRecord>>)
    ensures |os| == |chapters|
  {
    seq(|chapters|, i requires 0 <= i < |chapters| => PairRecord(df, region, chapters[i], testPeriods, fit, forecast))
  }

  lemma {:induction false} CategoryRecordsAreSomes(df: seq<Observation>, region: string, chapters: seq<string>,
      testPeriods: nat, fit: FitOracle, forecast: ForecastOracle)
    ensures CategoryRecords(df, region, chapters, testPeriods, fit, forecast) ==
      Somes(ChapterRecords(df, region, chapters, testPeriods, fit, forecast))
  {
    if chapters != [] {
      var n := |chapters| - 1;
      CategoryRecordsAreSomes(df, region, chapters[..n], testPeriods, fit, forecast);
      assert ChapterRecords(df, region, chapters, testPeriods, fit, forecast)[..n] ==
        ChapterRecords(df, region, chapters[..n], testPeriods, fit, forecast);
    }
  }

  /** The records of a list of chapters are, in the chapters' order, the
      records of exactly those chapters that are scored, one each: the j-th
      record is that of chapter idx[j], the indices increase, and every scored
      chapter is among them. */
  lemma CategoryRecordsIndexed(df: seq<Observation>, region: string, chapters: seq<string>,
      testPeriods: nat, fit: FitOracle, forecast: ForecastOracle) returns (idx: seq<nat>)
    ensures var records := CategoryRecords(df, region, chapters, testPeriods, fit, forecast);
      |idx| == |records| &&
      (forall j :: 0 <= j < |idx| ==>
        idx[j] < |chapters| && PairRecord(df, region, chapters[idx[j]], testPeriods, fit, forecast) == Some(records[j])) &&
      (forall j, j' :: 0 <= j < j' < |idx| ==> idx[j] < idx[j']) &&
      (forall i :: 0 <= i < |chapters| && PairRecord(df, region, chapters[i], testPeriods, fit, forecast).Some? ==>
        i in idx)
  {
    var os := ChapterRecords(df, region, chapters, testPeriods, fit, forecast);
    var records := CategoryRecords(df, region, chapters, testPeriods, fit, forecast);
    CategoryRecordsAreSomes(df, region, chapters, testPeriods, fit, forecast);
    idx := SomesIndexed(os);
    forall j | 0 <= j < |idx|
      ensures PairRecord(df, region, chapters[idx[j]], testPeriods, fit, forecast) == Some(records[j])
    {
      assert os[idx[j]] == PairRecord(df, region, chapters[idx[j]], testPeriods, fit, forecast);
    }
    forall i | 0 <= i < |chapters| && PairRecord(df, region, chapters[i], testPeriods, fit, forecast).Some?
      ensures i in idx
    {
      assert os[i] == PairRecord(df, region, chapters[i], testPeriods, fit, forecast);
    }
  }

  /** Each present value's key, tagged: the key at each position holding a value, in order. */
  function Tagged<R, C, E>(tag: R, keys: seq<C>, os: seq<Option<E>>): (here: seq<(R, C)>)
    requires |os| == |keys|
    ensures |here| == |Somes(os)|
  {
    var idx := SomePositions(os);
    SomePositionsShape(os);
    seq(|idx|, j requires 0 <= j < |idx| => (tag, keys[idx[j]]))
  }

  /** With distinct keys, no tagged key appears twice, each tagged key's
      position holds the matching present value, and every key whose
      position holds a value is tagged. */
  lemma TaggedSomes<R, C, E>(tag: R, keys: seq<C>, os: seq<Option<E>>)
    requires |os| == |keys| && NoDuplicates(keys)
    ensures var here := Tagged(tag, keys, os);
      (forall j :: 0 <= j < |here| ==> here[j].0 == tag && here[j].1 in keys) &&
      (forall i, j :: 0 <= i < |keys| && 0 <= j < |here| && here[j].1 == keys[i] ==> os[i] == Some(Somes(os)[j])) &&
      (forall j, j' :: 0 <= j < j' < |here| ==> here[j] != here[j']) &&
      (forall i :: 0 <= i < |keys| && os[i].Some? ==> (tag, keys[i]) in here)
  {
    var idx := SomePositions(os);
    SomePositionsShape(os);
    SomePositionsPick(os);
    SomePositionsCover(os);
    var here := Tagged(tag, keys, os);
    forall i, j | 0 <= i < |keys| && 0 <= j < |here| && here[j].1 == keys[i] ensures os[i] == Some(Somes(os)[j]) {
      assert keys[idx[j]] == keys[i];
    }
    forall j, j' | 0 <= j < j' < |here| ensures here[j] != here[j'] {
      assert idx[j] < idx[j'];
    }
    forall i | 0 <= i < |keys| && os[i].Some? ensures (tag, keys[i]) in here {
      var j :| 0 <= j < |idx| && idx[j] == i;
      assert here[j] == (tag, keys[i]);
    }
  }

  /** The (office, chapter) pair behind each record of one office. */
  function OfficePairList(df: seq<Observation>, region: string, testPeriods: nat, fit: FitOracle, forecast: ForecastOracle)
    : seq<(string, string)>
  {
    var chapters := ChaptersIn(df, region);
    Tagged(region, chapters, ChapterRecords(df, region, chapters, testPeriods, fit, forecast))
  }

  /** One office's records: each is the record of one of its chapters, no
      chapter twice, and every chapter whose forecast succeeds is present. */
  lemma OfficePairs(df: seq<Observation>, region: string, testPeriods: nat, fit: FitOracle, forecast: ForecastOracle)
    ensures var records := CategoryRecords(df, region, ChaptersIn(df, region), testPeriods, fit, forecast);
      var here := OfficePairList(df, region, testPeriods, fit, forecast);
      |here| == |records| &&
      (forall j :: 0 <= j < |here| ==>
        here[j].0 == region && here[j].1 in ChaptersIn(df, region) &&
        PairRecord(df, region, here[j].1, testPeriods, fit, forecast) == Some(records[j])) &&
      (forall j, j' :: 0 <= j < j' < |here| ==> here[j] != here[j']) &&
      (forall c :: c in ChaptersIn(df, region) && PairRecord(df, region, c, testPeriods, fit, forecast).Some? ==>
        (region, c) in here)
  {
    OfficeRecordPairs(df, region, testPeriods, fit, forecast);
    DistinctMembers(Categories(InRegion(df, region)));
    var chapters := ChaptersIn(df, region);
    TaggedSomes(region, chapters, ChapterRecords(df, region, chapters, testPeriods, fit, forecast));
    OfficeCover(df, region, testPeriods, fit, forecast);
  }

  lemma OfficeRecordPairs(df: seq<Observation>, region: string, testPeriods: nat, fit: FitOracle, forecast: ForecastOracle)
    ensures var records := CategoryRecords(df, region, ChaptersIn(df, region), testPeriods, fit, forecast);
      var here := OfficePairList(df, region, testPeriods, fit, forecast);
      |here| == |records| &&
      (forall j :: 0 <= j < |here| ==>
        here[j].0 == region && here[j].1 in ChaptersIn(df, region) &&
        PairRecord(df, region, here[j].1, testPeriods, fit, forecast) == Some(records[j]))
  {
    var chapters := ChaptersIn(df, region);
    var os := ChapterRecords(df, region, chapters, testPeriods, fit, forecast);
    CategoryRecordsAreSomes(df, region, chapters, testPeriods, fit, forecast);
    DistinctMembers(Categories(InRegion(df, region)));
    TaggedSomes(region, chapters, os);
    var here := OfficePairList(df, region, testPeriods, fit, forecast);
    forall j | 0 <= j < |here|
      ensures PairRecord(df, region, here[j].1, testPeriods, fit, forecast) == Some(Somes(os)[j])
    {
      var i :| 0 <= i < |chapters| && chapters[i] == here[j].1;
      assert os[i] == PairRecord(df, region, chapters[i], testPeriods, fit, forecast);
    }
  }

  lemma OfficeCover(df: seq<Observation>, region: string, testPeriods: nat, fit: FitOracle, forecast: ForecastOracle)
    ensures forall c :: c in ChaptersIn(df, region) && PairRecord(df, region, c, testPeriods, fit, forecast).Some? ==>
      (region, c) in OfficePairList(df, region, testPeriods, fit, forecast)
  {
    var chapters := ChaptersIn(df, region);
    var os := ChapterRecords(df, region, chapters, testPeriods, fit, forecast);
    DistinctMembers(Categories(InRegion(df, region)));
    TaggedSomes(region, chapters, os);
    forall c | c in chapters && PairRecord(df, region, c, testPeriods, fit, forecast).Some?
      ensures (region, c) in OfficePairList(df, region, testPeriods, fit, forecast)
    {
      var i :| 0 <= i < |chapters| && chapters[i] == c;
      assert os[i] == PairRecord(df, region, chapters[i], testPeriods, fit, forecast);
    }
  }

  /** The lists of the keys, joined in order. */
  function Flat<R, P>(keys: seq<R>, f: R -> seq<P>): seq<P>
  {
    if keys == [] then [] else Flat(keys[..|keys| - 1], f) + f(keys[|keys| - 1])
  }

  lemma {:induction false} FlatMember<R, P>(keys: seq<R>, f: R -> seq<P>, i: nat, p: P)
    requires i < |keys| && p in f(keys[i])
    ensures p in Flat(keys, f)
  {
    var n := |keys| - 1;
    if i < n {
      assert keys[..n][i] == keys[i];
      FlatMember(keys[..n], f, i, p);
    }
  }

  /** The (office, chapter) pair behind each record over a list of offices. */
  function RegionPairs(df: seq<Observation>, regions: seq<string>, testPeriods: nat, fit: FitOracle, forecast: ForecastOracle)
    : seq<(string, string)>
  {
    Flat(regions, (r: string) => OfficePairList(df, r, testPeriods, fit, forecast))
  }

  lemma {:induction false} RegionPairsRecords(df: seq<Observation>, regions: seq<string>,
      testPeriods: nat, fit: FitOracle, forecast: ForecastOracle)
    ensures var records := RegionRecords(df, regions, testPeriods, fit, forecast);
      var pairs := RegionPairs(df, regions, testPeriods, fit, forecast);
      |pairs| == |records| &&
      forall j :: 0 <= j < |pairs| ==>
        pairs[j].0 in regions && pairs[j].1 in ChaptersIn(df, pairs[j].0) &&
        PairRecord(df, pairs[j].0, pairs[j].1, testPeriods, fit, forecast) == Some(records[j])
  {
    var f := (r: string) => OfficePairList(df, r, testPeriods, fit, forecast);
    var g := (r: string) => CategoryRecords(df, r, ChaptersIn(df, r), testPeriods, fit, forecast);
    RegionRecordsFlat(df, regions, testPeriods, fit, forecast);
    forall r | r in regions ensures |f(r)| == |g(r)| {
      OfficePairsLength(df, r, testPeriods, fit, forecast);
    }
    FlatSameLength(regions, f, g);
    forall j | 0 <= j < |Flat(regions, f)|
      ensures Flat(regions, f)[j].0 in regions && Flat(regions, f)[j].1 in ChaptersIn(df, Flat(regions, f)[j].0) &&
        PairRecord(df, Flat(regions, f)[j].0, Flat(regions, f)[j].1, testPeriods, fit, forecast) == Some(Flat(regions, g)[j])
    {
      var i, k := FlatPairAt(regions, f, g, j);
      OfficePairAt(df, regions[i], testPeriods, fit, forecast, k);
    }
  }

  lemma {:induction false} RegionRecordsFlat(df: seq<Observation>, regions: seq<string>,
      testPeriods: nat, fit: FitOracle, forecast: ForecastOracle)
    ensures RegionRecords(df, regions, testPeriods, fit, forecast) ==
      Flat(regions, (r: string) => CategoryRecords(df, r, ChaptersIn(df, r), testPeriods, fit, forecast))
  {
    if regions != [] {
      RegionRecordsFlat(df, regions[..|regions| - 1], testPeriods, fit, forecast);
    }
  }

  lemma OfficePairsLength(df: seq<Observation>, region: string, testPeriods: nat, fit: FitOracle, forecast: ForecastOracle)
    ensures |OfficePairList(df, region, testPeriods, fit, forecast)| ==
      |CategoryRecords(df, region, ChaptersIn(df, region), testPeriods, fit, forecast)|
  {
    var chapters := ChaptersIn(df, region);
    CategoryRecordsAreSomes(df, region, chapters, testPeriods, fit, forecast);
  }

  lemma {:induction false} FlatSameLength<R, P, Q>(keys: seq<R>, f: R -> seq<P>, g: R -> seq<Q>)
    requires forall x :: x in keys ==> |f(x)| == |g(x)|
    ensures |Flat(keys, f)| == |Flat(keys, g)|
  {
    if keys != [] {
      var n := |keys| - 1;
      assert forall x :: x in keys[..n] ==> x in keys;
      FlatSameLength(keys[..n], f, g);
    }
  }

  /** Entry j of two flattenings with equal part lengths comes from the same part and offset. */
  lemma {:induction false} FlatPairAt<R, P, Q>(keys: seq<R>, f: R -> seq<P>, g: R -> seq<Q>, j: nat) returns (i: nat, k: nat)
    requires forall x :: x in keys ==> |f(x)| == |g(x)|
    requires j < |Flat(keys, f)|
    ensures i < |keys| && k < |f(keys[i])| && k < |g(keys[i])| && j < |Flat(keys, g)|
    ensures Flat(keys, f)[j] == f(keys[i])[k] && Flat(keys, g)[j] == g(keys[i])[k]
  {
    var n := |keys| - 1;
    assert forall x :: x in keys[..n] ==> x in keys;
    FlatSameLength(keys[..n], f, g);
    if j < |Flat(keys[..n], f)| {
      i, k := FlatPairAt(keys[..n], f, g, j);
      assert keys[..n][i] == keys[i];
    } else {
      i, k := n, j - |Flat(keys[..n], f)|;
    }
  }

  lemma OfficePairAt(df: seq<Observation>, region: string, testPeriods: nat, fit: FitOracle, forecast: ForecastOracle,
      k: nat)
    requires k < |OfficePairList(df, region, testPeriods, fit, forecast)|
    ensures var records := CategoryRecords(df, region, ChaptersIn(df, region), testPeriods, fit, forecast);
      var here := OfficePairList(df, region, testPeriods, fit, forecast);
      k < |records| && here[k].0 == region && here[k].1 in ChaptersIn(df, region) &&
      PairRecord(df, region, here[k].1, testPeriods, fit, forecast) == Some(records[k])
  {
    OfficeRecordPairs(df, region, testPeriods, fit, forecast);
  }

  lemma {:induction false} RegionPairsDistinct(df: seq<Observation>, regions: seq<string>,
      testPeriods: nat, fit: FitOracle, forecast: ForecastOracle)
    requires forall i, i' :: 0 <= i < i' < |regions| ==> regions[i] != regions[i']
    ensures var pairs := RegionPairs(df, regions, testPeriods, fit, forecast);
      forall j, j' :: 0 <= j < j' < |pairs| ==> pairs[j] != pairs[j']
  {
    if regions != [] {
      var n := |regions| - 1;
      RegionPairsDistinct(df, regions[..n], testPeriods, fit, forecast);
      RegionPairsRecords(df, regions[..n], testPeriods, fit, forecast);
      OfficePairs(df, regions[n], testPeriods, fit, forecast);
      assert regions[n] !in regions[..n];
      JoinPairs(regions, RegionPairs(df, regions[..n], testPeriods, fit, forecast),
        OfficePairList(df, regions[n], testPeriods, fit, forecast));
    }
  }

  lemma RegionPairsCover(df: seq<Observation>, regions: seq<string>,
      testPeriods: nat, fit: FitOracle, forecast: ForecastOracle)
    ensures forall r, c :: (r in regions && c in ChaptersIn(df, r) && PairRecord(df, r, c, testPeriods, fit, forecast).Some?) ==>
      (r, c) in RegionPairs(df, regions, testPeriods, fit, forecast)
  {
    forall r, c | r in regions && c in ChaptersIn(df, r) && PairRecord(df, r, c, testPeriods, fit, forecast).Some?
      ensures (r, c) in RegionPairs(df, regions, testPeriods, fit, forecast)
    {
      OfficeCover(df, r, testPeriods, fit, forecast);
      var i :| 0 <= i < |regions| && regions[i] == r;
      FlatMember(regions, (r: string) => OfficePairList(df, r, testPeriods, fit, forecast), i, (r, c));
    }
  }

  /** Pairs over the first offices followed by pairs of the next office stay
      pairs of the offices and repeat none. */
  lemma JoinPairs<R, C>(regions: seq<R>, pre: seq<(R, C)>, here: seq<(R, C)>)
    requires |regions| > 0 && regions[|regions| - 1] !in regions[..|regions| - 1]
    requires forall j :: 0 <= j < |pre| ==> pre[j].0 in regions[..|regions| - 1]
    requires forall j :: 0 <= j < |here| ==> here[j].0 == regions[|regions| - 1]
    requires forall j, j' :: 0 <= j < j' < |pre| ==> pre[j] != pre[j']
    requires forall j, j' :: 0 <= j < j' < |here| ==> here[j] != here[j']
    ensures forall j, j' :: 0 <= j < j' < |pre + here| ==> (pre + here)[j] != (pre + here)[j']
  {
    var pairs := pre + here;
    var n := |regions| - 1;
    forall j, j' | 0 <= j < j' < |pairs| ensures pairs[j] != pairs[j'] {
      if j < |pre| <= j' {
        assert pairs[j].0 in regions[..n];
        assert pairs[j'] == here[j' - |pre|];
      } else if j' < |pre| {
        assert pairs[j] == pre[j] && pairs[j'] == pre[j'];
      } else {
        assert pairs[j] == here[j - |pre|] && pairs[j'] == here[j' - |pre|];
      }
    }
  }

  /** Over a list of distinct offices, each record is the record of one
      (office, chapter) pair of the data, no pair is scored twice, and every
      pair whose forecast succeeds is present. */
  lemma RegionRecordsPairs(df: seq<Observation>, regions: seq<string>,
      testPeriods: nat, fit: FitOracle, forecast: ForecastOracle) returns (pairs: seq<(string, string)>)
    requires forall i, i' :: 0 <= i < i' < |regions| ==> regions[i] != regions[i']
    ensures var records := RegionRecords(df, regions, testPeriods, fit, forecast);
      |pairs| == |records| &&
      (forall j :: 0 <= j < |pairs| ==>
        pairs[j].0 in regions && pairs[j].1 in ChaptersIn(df, pairs[j].0) &&
        PairRecord(df, pairs[j].0, pairs[j].1, testPeriods, fit, forecast) == Some(records[j])) &&
      (forall j, j' :: 0 <= j < j' < |pairs| ==> pairs[j] != pairs[j']) &&
      (forall r, c :: (r in regions && c in ChaptersIn(df, r) && PairRecord(df, r, c, testPeriods, fit, forecast).Some?) ==>
        (r, c) in pairs)
  {
    pairs := RegionPairs(df, regions, testPeriods, fit, forecast);
    RegionPairsRecords(df, regions, testPeriods, fit, forecast);
    RegionPairsDistinct(df, regions, testPeriods, fit, forecast);
    RegionPairsCover(df, regions, testPeriods, fit, forecast);
  }

  /** No (office, chapter) pair is scored twice: every row of the frame is the
      record of one pair of the data, the pairs of different rows differ, and
      every pair whose forecast succeeds has its row. */
  lemma BacktestPairsOnce(df: seq<Observation>, testPeriods: nat, fit: FitOracle, forecast: ForecastOracle)
    returns (pairs: seq<(string, string)>)
    ensures var errors := BacktestErrors(df, testPeriods, fit, forecast);
      |pairs| == |errors| &&
      (forall j :: 0 <= j < |pairs| ==>
        pairs[j].0 in Regions(df) && pairs[j].1 in Categories(InRegion(df, pairs[j].0)) &&
        PairRecord(df, pairs[j].0, pairs[j].1, testPeriods, fit, forecast) == Some(errors[j])) &&
      (forall j, j' :: 0 <= j < j' < |pairs| ==> pairs[j] != pairs[j']) &&
      (forall r, c ::
        (r in Regions(df) && c in Categories(InRegion(df, r)) && PairRecord(df, r, c, testPeriods, fit, forecast).Some?) ==>
        (r, c) in pairs)
  {
    var regions := Distinct(Regions(df));
    DistinctMembers(Regions(df));
    pairs := RegionRecordsPairs(df, regions, testPeriods, fit, forecast);
    forall j | 0 <= j < |pairs| ensures pairs[j].0 in Regions(df) && pairs[j].1 in Categories(InRegion(df, pairs[j].0)) {
      DistinctMembers(Categories(InRegion(df, pairs[j].0)));
    }
    forall r, c | r in Regions(df) && c in Categories(InRegion(df, r)) &&
        PairRecord(df, r, c, testPeriods, fit, forecast).Some?
      ensures (r, c) in pairs
    {
      DistinctMembers(Categories(InRegion(df, r)));
    }
  }

  /** With no held-out months the training slice is empty, train_arima refuses
      it, and the frame is empty. */
  lemma NoTestPeriodsNoErrors(df: seq<Observation>, fit: FitOracle, forecast: ForecastOracle)
    ensures BacktestErrors(df, 0, fit, forecast) == []
  {
    BacktestRecordsGrounded(df, 0, fit, forecast);
  }
}
