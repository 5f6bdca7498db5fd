/** The prescription-cost table the engine works on: one row per
    (month, regional office, BNF chapter) with its TOTAL_COST, and the
    pandas selections and group-bys the core applies to it. */
module Dataset {
  import opened Stats

  type MonthOfYear = m: int | 1 <= m <= 12 witness 1

  /** A YEAR_MONTH timestamp; every value in the table is the first day of its month. */
  datatype YearMonth = YearMonth(year: int, month: MonthOfYear)

  /** Months counted from January of year 0, so that consecutive months differ by one. */
  function Ordinal(ym: YearMonth): int
  {
    ym.year * 12 + ym.month - 1
  }

  function FromOrdinal(k: int): (ym: YearMonth)
    ensures Ordinal(ym) == k
  {
    YearMonth(k / 12, k % 12 + 1)
  }

  lemma OrdinalRoundTrip(ym: YearMonth)
    ensures FromOrdinal(Ordinal(ym)) == ym
  {
    var k := Ordinal(ym);
    assert k == ym.year * 12 + (ym.month - 1) && 0 <= ym.month - 1 < 12;
    assert k / 12 == ym.year && k % 12 == ym.month - 1;
  }

  lemma OrdinalInjective(a: YearMonth, b: YearMonth)
    ensures Ordinal(a) == Ordinal(b) <==> a == b
  {
    OrdinalRoundTrip(a);
    OrdinalRoundTrip(b);
  }

  /** `timestamp + pd.DateOffset(months=1)` on a month start. */
  function NextMonth(ym: YearMonth): YearMonth
  {
    if ym.month == 12 then YearMonth(ym.year + 1, 1) else YearMonth(ym.year, ym.month + 1)
  }

  /** Adding one calendar month is one step on the month count. */
  lemma NextMonthOrdinal(ym: YearMonth)
    ensures Ordinal(NextMonth(ym)) == Ordinal(ym) + 1
    ensures NextMonth(ym) == FromOrdinal(Ordinal(ym) + 1)
  {
    OrdinalRoundTrip(NextMonth(ym));
  }

  datatype Observation = Observation(month: YearMonth, region: string, category: string, cost: real)

  function Costs(rows: seq<Observation>): (r: seq<real>)
    ensures |r| == |rows| && forall i :: 0 <= i < |rows| ==> r[i] == rows[i].cost
  {
    seq(|rows|, i requires 0 <= i < |rows| => rows[i].cost)
  }

  // ---------------------------------------------------------------------------
  // Selections and unique()
  // ---------------------------------------------------------------------------

  ghost predicate NoDuplicates<T>(s: seq<T>)
  {
    forall i, j :: 0 <= i < j < |s| ==> s[i] != s[j]
  }

  /** `Series.unique()`: each value once, in order of first appearance. */
  function Distinct<T(==)>(s: seq<T>): (r: seq<T>)
    ensures |r| <= |s|
  {
    if s == [] then []
    else
      var d := Distinct(s[..|s| - 1]);
      if s[|s| - 1] in d then d else d + [s[|s| - 1]]
  }

  /** unique() keeps every value of the column, adds none, and repeats none. */
  lemma {:induction false} DistinctMembers<T>(s: seq<T>)
    ensures var r := Distinct(s);
      NoDuplicates(r) &&
      (forall i :: 0 <= i < |r| ==> r[i] in s) &&
      (forall i :: 0 <= i < |s| ==> s[i] in r)
  {
    if s != [] {
      var init := s[..|s| - 1];
      var last := s[|s| - 1];
      var d := Distinct(init);
      DistinctMembers(init);
      forall i | 0 <= i < |s| ensures s[i] in Distinct(s) {
        if i < |s| - 1 {
          assert s[i] == init[i];
        }
      }
      if last !in d {
        assert Distinct(s) == d + [last];
        forall i | 0 <= i < |d| + 1 ensures Distinct(s)[i] in s {
          if i < |d| {
            assert d[i] in init;
          }
        }
      }
    }
  }

  /** Value r[j] first occurs in s at position first[j], and these positions increase. */
  ghost predicate FirstSeen<T>(s: seq<T>, r: seq<T>, first: seq<nat>)
  {
    |first| == |r| &&
    (forall j :: 0 <= j < |r| ==> first[j] < |s| && s[first[j]] == r[j]) &&
    (forall j, k :: 0 <= j < |r| && 0 <= k < first[j] ==> s[k] != r[j]) &&
    (forall j, j' :: 0 <= j < j' < |r| ==> first[j] < first[j'])
  }

  /** unique() lists the values in order of first appearance. */
  lemma {:induction false} DistinctFirstSeen<T>(s: seq<T>) returns (first: seq<nat>)
    ensures FirstSeen(s, Distinct(s), first)
  {
    if s == [] {
      first := [];
    } else {
      var n := |s| - 1;
      var init := s[..n];
      var d := Distinct(init);
      var pre := DistinctFirstSeen(init);
      assert s == init + [s[n]];
      FirstSeenExtend(init, s[n], d, pre);
      if s[n] in d {
        assert Distinct(s) == d;
        first := pre;
      } else {
        DistinctMembers(init);
        first := pre + [n];
        FirstSeenNew(init, s[n], d, pre);
        assert Distinct(s) == d + [s[n]];
      }
    }
  }

  lemma FirstSeenExtend<T>(s: seq<T>, x: T, r: seq<T>, first: seq<nat>)
    requires FirstSeen(s, r, first)
    ensures FirstSeen(s + [x], r, first)
  {
    var t := s + [x];
    forall j | 0 <= j < |r| ensures t[first[j]] == r[j] {
      assert t[first[j]] == s[first[j]];
    }
    forall j, k | 0 <= j < |r| && 0 <= k < first[j] ensures t[k] != r[j] {
      assert t[k] == s[k];
    }
  }

  lemma FirstSeenNew<T>(s: seq<T>, x: T, r: seq<T>, first: seq<nat>)
    requires FirstSeen(s, r, first) && x !in r
    requires forall k :: 0 <= k < |s| ==> s[k] in r
    ensures FirstSeen(s + [x], r + [x], first + [|s|])
  {
    FirstSeenExtend(s, x, r, first);
    var t, r', f' := s + [x], r + [x], first + [|s|];
    forall k | 0 <= k < |s| ensures t[k] != x {
      assert t[k] == s[k];
    }
    forall j | 0 <= j < |r'| ensures f'[j] < |t| && t[f'[j]] == r'[j] {
      if j < |r| {
        assert f'[j] == first[j] && r'[j] == r[j];
      }
    }
  }

  /** Boolean-mask selection `df[mask]`: the rows satisfying p, in their original order. */
  function Filter<T>(s: seq<T>, p: T -> bool): (r: seq<T>)
    ensures |r| <= |s|
  {
    if s == [] then []
    else
      var rest := Filter(s[..|s| - 1], p);
      if p(s[|s| - 1]) then rest + [s[|s| - 1]] else rest
  }

  /** A selection keeps exactly the rows satisfying the predicate, each as
      often as it occurs, and drops every other row. */
  lemma {:induction false} FilterSelects<T>(s: seq<T>, p: T -> bool)
    ensures var r := Filter(s, p);
      (forall i :: 0 <= i < |r| ==> p(r[i])) &&
      (forall i :: 0 <= i < |s| && p(s[i]) ==> s[i] in r) &&
      multiset(r) <= multiset(s) &&
      (forall x :: multiset(r)[x] == if p(x) then multiset(s)[x] else 0)
  {
    FilterKeeps(s, p);
    forall x ensures multiset(Filter(s, p))[x] == if p(x) then multiset(s)[x] else 0 {
      FilterCounts(s, p, x);
    }
  }

  /** A selection keeps the input's order: selecting from a concatenation
      selects from each part and concatenates the results. */
  lemma {:induction false} FilterAppend<T>(a: seq<T>, b: seq<T>, p: T -> bool)
    ensures Filter(a + b, p) == Filter(a, p) + Filter(b, p)
  {
    if b == [] {
      assert a + b == a;
    } else {
      var n := |b| - 1;
      FilterAppend(a, b[..n], p);
      assert (a + b)[..|a + b| - 1] == a + b[..n];
      assert (a + b)[|a + b| - 1] == b[n];
    }
  }

  lemma {:induction false} FilterKeeps<T>(s: seq<T>, p: T -> bool)
    ensures var r := Filter(s, p);
      (forall i :: 0 <= i < |r| ==> p(r[i])) &&
      (forall i :: 0 <= i < |s| && p(s[i]) ==> s[i] in r) &&
      multiset(r) <= multiset(s)
  {
    if s != [] {
      var init := s[..|s| - 1];
      FilterKeeps(init, p);
      assert s == init + [s[|s| - 1]];
      assert forall i :: 0 <= i < |s| - 1 ==> s[i] == init[i];
    }
  }

  lemma {:induction false} FilterCounts<T>(s: seq<T>, p: T -> bool, x: T)
    ensures multiset(Filter(s, p))[x] == if p(x) then multiset(s)[x] else 0
  {
    if s != [] {
      var init, last := s[..|s| - 1], s[|s| - 1];
      FilterCounts(init, p, x);
      assert s == init + [last];
      assert multiset(s)[x] == multiset(init)[x] + multiset([last])[x];
      if p(last) {
        assert Filter(s, p) == Filter(init, p) + [last];
        assert multiset(Filter(s, p))[x] == multiset(Filter(init, p))[x] + multiset([last])[x];
      }
    }
  }

  /** `df[mask]`: the rows whose mask entry is set, in order. */
  function Select<T>(s: seq<T>, mask: seq<bool>): (r: seq<T>)
    requires |mask| == |s|
    ensures |r| <= |s|
  {
    if s == [] then []
    else
      var last := |s| - 1;
      var rest := Select(s[..last], mask[..last]);
      if mask[last] then rest + [s[last]] else rest
  }

  /** A mask selection keeps every flagged row and nothing else: each value
      occurs in the result once per flagged position holding it. */
  lemma SelectMembers<T>(s: seq<T>, mask: seq<bool>)
    requires |mask| == |s|
    ensures var r := Select(s, mask);
      multiset(r) <= multiset(s) &&
      (forall i :: 0 <= i < |s| && mask[i] ==> s[i] in r) &&
      (forall x :: x in r ==> exists i :: 0 <= i < |s| && mask[i] && s[i] == x) &&
      (forall x :: multiset(r)[x] == |FlaggedAt(s, mask, x)|)
  {
    SelectSubMultiset(s, mask);
    SelectKeepsFlagged(s, mask);
    SelectOnlyFlagged(s, mask);
    forall x ensures multiset(Select(s, mask))[x] == |FlaggedAt(s, mask, x)| {
      SelectCounts(s, mask, x);
    }
  }

  /** The flagged positions holding x. */
  ghost function FlaggedAt<T>(s: seq<T>, mask: seq<bool>, x: T): set<int>
    requires |mask| == |s|
  {
    set i | 0 <= i < |s| && mask[i] && s[i] == x
  }

  lemma {:induction false} SelectCounts<T>(s: seq<T>, mask: seq<bool>, x: T)
    requires |mask| == |s|
    ensures multiset(Select(s, mask))[x] == |FlaggedAt(s, mask, x)|
  {
    if s == [] {
      assert FlaggedAt(s, mask, x) == {};
    } else {
      var last := |s| - 1;
      var init, m := s[..last], mask[..last];
      SelectCounts(init, m, x);
      FlaggedAtSnoc(s, mask, x);
      if mask[last] {
        assert Select(s, mask) == Select(init, m) + [s[last]];
        assert multiset(Select(s, mask))[x] == multiset(Select(init, m))[x] + multiset([s[last]])[x];
      }
    }
  }

  lemma FlaggedAtSnoc<T>(s: seq<T>, mask: seq<bool>, x: T)
    requires |mask| == |s| > 0
    ensures var last := |s| - 1;
      |FlaggedAt(s, mask, x)| ==
        |FlaggedAt(s[..last], mask[..last], x)| + if mask[last] && s[last] == x then 1 else 0
  {
    var last := |s| - 1;
    var before := FlaggedAt(s[..last], mask[..last], x);
    if mask[last] && s[last] == x {
      assert FlaggedAt(s, mask, x) == before + {last};
      assert last !in before;
    } else {
      assert FlaggedAt(s, mask, x) == before;
    }
  }

  lemma {:induction false} SelectSubMultiset<T>(s: seq<T>, mask: seq<bool>)
    requires |mask| == |s|
    ensures multiset(Select(s, mask)) <= multiset(s)
  {
    if s != [] {
      var last := |s| - 1;
      SelectSubMultiset(s[..last], mask[..last]);
      assert s == s[..last] + [s[last]];
    }
  }

  lemma {:induction false} SelectKeepsFlagged<T>(s: seq<T>, mask: seq<bool>)
    requires |mask| == |s|
    ensures forall i :: 0 <= i < |s| && mask[i] ==> s[i] in Select(s, mask)
  {
    if s != [] {
      var last := |s| - 1;
      var init, m := s[..last], mask[..last];
      SelectKeepsFlagged(init, m);
      forall i | 0 <= i < |s| && mask[i] ensures s[i] in Select(s, mask) {
        if i < last {
          assert s[i] == init[i] && mask[i] == m[i];
          assert s[i] in Select(init, m);
        }
      }
    }
  }

  lemma {:induction false} SelectOnlyFlagged<T>(s: seq<T>, mask: seq<bool>)
    requires |mask| == |s|
    ensures forall x :: x in Select(s, mask) ==> exists i :: 0 <= i < |s| && mask[i] && s[i] == x
  {
    if s != [] {
      var last := |s| - 1;
      var init, m := s[..last], mask[..last];
      SelectOnlyFlagged(init, m);
      forall x | x in Select(s, mask) ensures exists i :: 0 <= i < |s| && mask[i] && s[i] == x {
        if x in Select(init, m) {
          var i :| 0 <= i < |init| && m[i] && init[i] == x;
          assert mask[i] && s[i] == x;
        } else {
          assert mask[last] && s[last] == x;
        }
      }
    }
  }

  /** A mask computed row by row from a predicate selects what the predicate filters. */
  lemma {:induction false} SelectIsFilter<T>(s: seq<T>, mask: seq<bool>, p: T -> bool)
    requires |mask| == |s| && forall i :: 0 <= i < |s| ==> mask[i] == p(s[i])
    ensures Select(s, mask) == Filter(s, p)
  {
    if s != [] {
      var last := |s| - 1;
      SelectIsFilter(s[..last], mask[..last], p);
    }
  }

  lemma {:induction false} SelectNone<T>(s: seq<T>, mask: seq<bool>)
    requires |mask| == |s| && forall i :: 0 <= i < |s| ==> !mask[i]
    ensures Select(s, mask) == []
  {
    if s != [] {
      var last := |s| - 1;
      SelectNone(s[..last], mask[..last]);
    }
  }

  lemma {:induction false} SelectAll<T>(s: seq<T>, mask: seq<bool>)
    requires |mask| == |s| && forall i :: 0 <= i < |s| ==> mask[i]
    ensures Select(s, mask) == s
  {
    if s != [] {
      var last := |s| - 1;
      SelectAll(s[..last], mask[..last]);
      assert s == s[..last] + [s[last]];
    }
  }

  function Regions(rows: seq<Observation>): seq<string>
  {
    seq(|rows|, i requires 0 <= i < |rows| => rows[i].region)
  }

  function Categories(rows: seq<Observation>): seq<string>
  {
    seq(|rows|, i requires 0 <= i < |rows| => rows[i].category)
  }

  function InRegion(rows: seq<Observation>, region: string): seq<Observation>
  {
    Filter(rows, (o: Observation) => o.region == region)
  }

  function InCategory(rows: seq<Observation>, category: string): seq<Observation>
  {
    Filter(rows, (o: Observation) => o.category == category)
  }

  function InMonth(rows: seq<Observation>, ym: YearMonth): seq<Observation>
  {
    Filter(rows, (o: Observation) => o.month == ym)
  }

  // ---------------------------------------------------------------------------
  // groupby('YEAR_MONTH')['TOTAL_COST'].sum(): one total per month, months ascending
  // ---------------------------------------------------------------------------

  datatype MonthTotal = MonthTotal(month: YearMonth, total: real)

  ghost predicate StrictlyIncreasing(s: seq<int>)
  {
    forall i, j :: 0 <= i < j < |s| ==> s[i] < s[j]
  }

  function MinOf(s: seq<int>): int
    requires |s| > 0
  {
    if |s| == 1 then s[0]
    else
      var rest := MinOf(s[1..]);
      if s[0] <= rest then s[0] else rest
  }

  function MaxOf(s: seq<int>): int
    requires |s| > 0
  {
    if |s| == 1 then s[0]
    else
      var rest := MaxOf(s[1..]);
      if s[0] >= rest then s[0] else rest
  }

  lemma {:induction false} MinMaxBounds(s: seq<int>)
    requires |s| > 0
    ensures MinOf(s) in s && MaxOf(s) in s
    ensures forall i :: 0 <= i < |s| ==> MinOf(s) <= s[i] <= MaxOf(s)
  {
    if |s| > 1 {
      MinMaxBounds(s[1..]);
      assert forall i :: 1 <= i < |s| ==> s[i] == s[1..][i - 1];
    }
  }

  /** The values of ks lying in lo..hi, each once, in ascending order. */
  function PresentBetween(ks: seq<int>, lo: int, hi: int): seq<int>
    decreases hi - lo
  {
    if lo > hi then []
    else
      var rest := PresentBetween(ks, lo + 1, hi);
      if lo in ks then [lo] + rest else rest
  }

  lemma {:induction false} PresentBetweenShape(ks: seq<int>, lo: int, hi: int)
    ensures var r := PresentBetween(ks, lo, hi);
      (forall i :: 0 <= i < |r| ==> lo <= r[i] <= hi) &&
      StrictlyIncreasing(r) &&
      (forall k :: k in r <==> lo <= k <= hi && k in ks)
    decreases hi - lo
  {
    if lo <= hi {
      var rest := PresentBetween(ks, lo + 1, hi);
      PresentBetweenShape(ks, lo + 1, hi);
      if lo in ks {
        IncreasingCons(lo, rest);
        assert PresentBetween(ks, lo, hi) == [lo] + rest;
      } else {
        assert PresentBetween(ks, lo, hi) == rest;
      }
    }
  }

  lemma IncreasingCons(x: int, s: seq<int>)
    requires StrictlyIncreasing(s) && forall i :: 0 <= i < |s| ==> x < s[i]
    ensures StrictlyIncreasing([x] + s)
  {
    var r := [x] + s;
    forall i, j | 0 <= i < j < |r| ensures r[i] < r[j] {
      assert r[j] == s[j - 1];
      if i > 0 {
        assert r[i] == s[i - 1];
      }
    }
  }

  function MonthOrdinals(rows: seq<Observation>): (ks: seq<int>)
    ensures |ks| == |rows|
  {
    seq(|rows|, i requires 0 <= i < |rows| => Ordinal(rows[i].month))
  }

  /** The months that occur in the rows, ascending, each once. */
  function AscendingMonths(rows: seq<Observation>): seq<int>
  {
    var ords := MonthOrdinals(rows);
    if ords == [] then [] else PresentBetween(ords, MinOf(ords), MaxOf(ords))
  }

  lemma AscendingMonthsShape(rows: seq<Observation>)
    ensures StrictlyIncreasing(AscendingMonths(rows))
    ensures forall k :: k in AscendingMonths(rows) <==> k in MonthOrdinals(rows)
  {
    var ords := MonthOrdinals(rows);
    if ords != [] {
      MinMaxBounds(ords);
      PresentBetweenShape(ords, MinOf(ords), MaxOf(ords));
      forall k | k in ords ensures MinOf(ords) <= k <= MaxOf(ords) {
        var i :| 0 <= i < |ords| && ords[i] == k;
      }
    }
  }

  /** `groupby('YEAR_MONTH')['TOTAL_COST'].sum()`. */
  function MonthlySeries(rows: seq<Observation>): seq<MonthTotal>
  {
    var ks := AscendingMonths(rows);
    seq(|ks|, i requires 0 <= i < |ks| =>
      MonthTotal(FromOrdinal(ks[i]), Sum(Costs(InMonth(rows, FromOrdinal(ks[i]))))))
  }

  /** The monthly totals of a set of rows: months in ascending order without
      repeats, every month that occurs in the rows and no other, and each total
      the sum of the costs of that month's rows. */
  lemma MonthlySeriesShape(rows: seq<Observation>)
    ensures var r := MonthlySeries(rows);
      (forall i, j :: 0 <= i < j < |r| ==> Ordinal(r[i].month) < Ordinal(r[j].month)) &&
      (forall i :: 0 <= i < |r| ==> r[i].total == Sum(Costs(InMonth(rows, r[i].month)))) &&
      (forall i :: 0 <= i < |r| ==> r[i].month in Months(rows)) &&
      (forall j :: 0 <= j < |rows| ==> rows[j].month in SeriesMonths(r))
  {
    var ks := AscendingMonths(rows);
    var r := MonthlySeries(rows);
    AscendingMonthsShape(rows);
    assert forall i :: 0 <= i < |ks| ==> r[i].month == FromOrdinal(ks[i]);
    forall i, j | 0 <= i < j < |r| ensures Ordinal(r[i].month) < Ordinal(r[j].month) {
      assert ks[i] < ks[j];
    }
    SeriesCoversRows(rows, ks, r);
  }

  function Months(rows: seq<Observation>): (r: seq<YearMonth>)
    ensures |r| == |rows| && forall i :: 0 <= i < |rows| ==> r[i] == rows[i].month
  {
    seq(|rows|, i requires 0 <= i < |rows| => rows[i].month)
  }

  function SeriesMonths(series: seq<MonthTotal>): (r: seq<YearMonth>)
    ensures |r| == |series| && forall i :: 0 <= i < |series| ==> r[i] == series[i].month
  {
    seq(|series|, i requires 0 <= i < |series| => series[i].month)
  }

  lemma SeriesCoversRows(rows: seq<Observation>, ks: seq<int>, r: seq<MonthTotal>)
    requires forall k :: k in ks <==> k in MonthOrdinals(rows)
    requires |r| == |ks| && forall i :: 0 <= i < |ks| ==> r[i].month == FromOrdinal(ks[i])
    ensures forall i :: 0 <= i < |r| ==> r[i].month in Months(rows)
    ensures forall j :: 0 <= j < |rows| ==> rows[j].month in SeriesMonths(r)
  {
    forall i | 0 <= i < |r| ensures r[i].month in Months(rows) {
      assert ks[i] in MonthOrdinals(rows);
      var j :| 0 <= j < |rows| && MonthOrdinals(rows)[j] == ks[i];
      OrdinalRoundTrip(rows[j].month);
      assert Months(rows)[j] == r[i].month;
    }
    forall j | 0 <= j < |rows| ensures rows[j].month in SeriesMonths(r) {
      assert MonthOrdinals(rows)[j] in ks;
      var i :| 0 <= i < |ks| && ks[i] == Ordinal(rows[j].month);
      OrdinalRoundTrip(rows[j].month);
      assert SeriesMonths(r)[i] == rows[j].month;
    }
  }

  function Totals(series: seq<MonthTotal>): (r: seq<real>)
    ensures |r| == |series| && forall i :: 0 <= i < |series| ==> r[i] == series[i].total
  {
    seq(|series|, i requires 0 <= i < |series| => series[i].total)
  }
}
