/** The descriptive statistics pandas and numpy compute for the engine:
    sums and means, linear-interpolation quantiles over a sorted copy,
    sample variance (ddof = 1) and rounding to two decimals.
    Reals stand for floating-point values; NaN results are `None`. */
module Stats {
  import opened Wrappers

  function Abs(x: real): (r: real)
    ensures r >= 0.0 && (r == x || r == -x)
  {
    if x < 0.0 then -x else x
  }

  function Sum(xs: seq<real>): real
  {
    if xs == [] then 0.0 else xs[0] + Sum(xs[1..])
  }

  /** The arithmetic mean; pandas yields NaN on an empty column, which callers rule out. */
  function Mean(xs: seq<real>): real
    requires |xs| > 0
  {
    Sum(xs) / |xs| as real
  }

  ghost predicate AllEqual(xs: seq<real>, c: real)
  {
    forall i :: 0 <= i < |xs| ==> xs[i] == c
  }

  /** Every value of the column is the same. */
  ghost predicate Constant(xs: seq<real>)
  {
    forall i, j :: 0 <= i < |xs| && 0 <= j < |xs| ==> xs[i] == xs[j]
  }

  lemma {:induction false} SumOfConstant(xs: seq<real>, c: real)
    requires AllEqual(xs, c)
    ensures Sum(xs) == |xs| as real * c
  {
    if xs != [] {
      SumOfConstant(xs[1..], c);
    }
  }

  lemma MeanOfConstant(xs: seq<real>, c: real)
    requires |xs| > 0 && AllEqual(xs, c)
    ensures Mean(xs) == c
  {
    SumOfConstant(xs, c);
  }

  lemma {:induction false} SumNonNegative(xs: seq<real>)
    requires forall i :: 0 <= i < |xs| ==> xs[i] >= 0.0
    ensures Sum(xs) >= 0.0
  {
    if xs != [] {
      SumNonNegative(xs[1..]);
    }
  }

  /** A count out of n, as a share: a fraction that is positive exactly when the count is. */
  lemma FractionBounds(c: real, n: real)
    requires 0.0 <= c <= n && n > 0.0
    ensures 0.0 <= c / n <= 1.0
    ensures c / n > 0.0 <==> c > 0.0
  {
    DivideMonotone(0.0, c, n);
    DivideMonotone(c, n, n);
    assert (c / n) * n == c;
  }

  /** Dividing by a positive number keeps an ordering. */
  lemma DivideMonotone(a: real, b: real, n: real)
    requires a <= b && n > 0.0
    ensures a / n <= b / n
  {
    calc {
      a / n;
    ==
      a * (1.0 / n);
    <= { assert 1.0 / n > 0.0; }
      b * (1.0 / n);
    ==
      b / n;
    }
  }

  lemma MeanNonNegative(xs: seq<real>)
    requires |xs| > 0 && forall i :: 0 <= i < |xs| ==> xs[i] >= 0.0
    ensures Mean(xs) >= 0.0
  {
    SumNonNegative(xs);
    DivideMonotone(0.0, Sum(xs), |xs| as real);
  }

  /** The triangle inequality for sums: |x0 + x1 + ...| <= y0 + y1 + ... when |xi| <= yi. */
  lemma {:induction false} SumAbsBound(xs: seq<real>, ys: seq<real>)
    requires |xs| == |ys| && forall i :: 0 <= i < |xs| ==> Abs(xs[i]) <= ys[i]
    ensures Abs(Sum(xs)) <= Sum(ys)
  {
    if xs != [] {
      SumAbsBound(xs[1..], ys[1..]);
    }
  }

  lemma MeanAbsBound(xs: seq<real>, ys: seq<real>)
    requires |xs| == |ys| > 0 && forall i :: 0 <= i < |xs| ==> Abs(xs[i]) <= ys[i]
    ensures Abs(Mean(xs)) <= Mean(ys)
  {
    var n := |xs| as real;
    SumAbsBound(xs, ys);
    DivideMonotone(Sum(xs), Sum(ys), n);
    DivideMonotone(-Sum(ys), Sum(xs), n);
    assert -Sum(ys) / n == -(Sum(ys) / n);
  }

  /** A sum of non-negative terms is zero only when every term is zero. */
  lemma {:induction false} SumZeroMeansAllZero(xs: seq<real>)
    requires forall i :: 0 <= i < |xs| ==> xs[i] >= 0.0
    ensures Sum(xs) == 0.0 <==> AllEqual(xs, 0.0)
  {
    if xs != [] {
      SumNonNegative(xs[1..]);
      SumZeroMeansAllZero(xs[1..]);
      if Sum(xs) == 0.0 {
        assert xs[0] == 0.0;
        forall i | 0 <= i < |xs| ensures xs[i] == 0.0 {
          if i > 0 { assert xs[i] == xs[1..][i - 1]; }
        }
      }
      if AllEqual(xs, 0.0) {
        assert AllEqual(xs[1..], 0.0);
      }
    }
  }

  // ---------------------------------------------------------------------------
  // Sorting (the copy numpy sorts before reading off a quantile)
  // ---------------------------------------------------------------------------

  ghost predicate Sorted(s: seq<real>)
  {
    forall i, j :: 0 <= i < j < |s| ==> s[i] <= s[j]
  }

  function Insert(x: real, s: seq<real>): (r: seq<real>)
    requires Sorted(s)
    ensures Sorted(r)
    ensures multiset(r) == multiset(s) + multiset{x}
    ensures |r| == |s| + 1
    ensures r[0] == if s == [] || x <= s[0] then x else s[0]
  {
    if s == [] then [x]
    else if x <= s[0] then [x] + s
    else
      var rest := Insert(x, s[1..]);
      InsertStep(x, s, rest);
      [s[0]] + rest
  }

  /** Inserting after the head: the head stays in front of the insertion into the tail. */
  lemma InsertStep(x: real, s: seq<real>, rest: seq<real>)
    requires Sorted(s) && s != [] && s[0] < x
    requires Sorted(rest) && |rest| == |s| && multiset(rest) == multiset(s[1..]) + multiset{x}
    requires rest[0] == if s[1..] == [] || x <= s[1..][0] then x else s[1..][0]
    ensures Sorted([s[0]] + rest)
    ensures multiset([s[0]] + rest) == multiset(s) + multiset{x}
  {
    assert s == [s[0]] + s[1..];
    SortedCons(s[0], rest);
  }

  lemma SortedCons(a: real, s: seq<real>)
    requires Sorted(s) && (s != [] ==> a <= s[0])
    ensures Sorted([a] + s)
  {
    var r := [a] + s;
    forall i, j | 0 <= i < j < |r| ensures r[i] <= r[j] {
      if i == 0 {
        assert r[j] == s[j - 1] >= s[0];
      } else {
        assert r[i] == s[i - 1] && r[j] == s[j - 1];
      }
    }
  }

  function Sort(xs: seq<real>): (r: seq<real>)
    ensures Sorted(r)
    ensures multiset(r) == multiset(xs)
    ensures |r| == |xs|
  {
    if xs == [] then []
    else
      assert xs == [xs[0]] + xs[1..];
      Insert(xs[0], Sort(xs[1..]))
  }

  // ---------------------------------------------------------------------------
  // Quantiles, method='linear' (pandas' default)
  // ---------------------------------------------------------------------------

  /** Scaling by a non-negative factor keeps the order. */
  lemma ScaleMonotone(a: real, b: real, d: real)
    requires a <= b && d >= 0.0
    ensures a * d <= b * d && d * a <= d * b
  {
    assert b * d - a * d == (b - a) * d;
  }

  /** The position (n - 1) * q, counted from 0, that the q-quantile of n sorted values sits at. */
  function Position(n: nat, q: real): (h: real)
    requires n > 0 && 0.0 <= q <= 1.0
    ensures 0.0 <= h <= (n - 1) as real
  {
    var m := (n - 1) as real;
    assert 0.0 <= m * q <= m by {
      ScaleMonotone(0.0, q, m);
      ScaleMonotone(q, 1.0, m);
      assert m * 0.0 == 0.0 && m * 1.0 == m;
    }
    m * q
  }

  /** A later fraction never sits at an earlier position. */
  lemma PositionMonotone(n: nat, q1: real, q2: real)
    requires n > 0 && 0.0 <= q1 <= q2 <= 1.0
    ensures Position(n, q1) <= Position(n, q2)
  {
    var m := (n - 1) as real;
    calc {
      Position(n, q1);
    ==
      m * q1;
    <= { ScaleMonotone(q1, q2, m); }
      m * q2;
    ==
      Position(n, q2);
    }
  }

  /** The whole part of the position: the lower of the two neighbours interpolated between. */
  function FloorIndex(n: nat, q: real): (lo: int)
    requires n > 0 && 0.0 <= q <= 1.0
    ensures 0 <= lo < n
    ensures lo as real <= Position(n, q) < lo as real + 1.0
  {
    Position(n, q).Floor
  }

  /** Linear interpolation at fraction q into an already sorted column. */
  function Interpolate(s: seq<real>, q: real): real
    requires |s| > 0 && 0.0 <= q <= 1.0
  {
    var lo := FloorIndex(|s|, q);
    var frac := Position(|s|, q) - lo as real;
    if lo + 1 < |s| then s[lo] + frac * (s[lo + 1] - s[lo]) else s[lo]
  }

  /** `Series.quantile(q)`: NaN (None) on an empty column, otherwise the
      interpolated value of the sorted column at position (n - 1) * q. */
  function Quantile(xs: seq<real>, q: real): Option<real>
    requires 0.0 <= q <= 1.0
  {
    if xs == [] then None else Some(Interpolate(Sort(xs), q))
  }

  /** An interpolated value lies between the two sorted neighbours it is taken from. */
  lemma InterpolateBetweenNeighbours(s: seq<real>, q: real)
    requires |s| > 0 && 0.0 <= q <= 1.0 && Sorted(s)
    ensures var lo := FloorIndex(|s|, q);
      s[lo] <= Interpolate(s, q) <= (if lo + 1 < |s| then s[lo + 1] else s[lo])
  {
    var lo := FloorIndex(|s|, q);
    var frac := Position(|s|, q) - lo as real;
    if lo + 1 < |s| {
      var d := s[lo + 1] - s[lo];
      assert Interpolate(s, q) == s[lo] + frac * d;
      assert 0.0 <= frac < 1.0 && d >= 0.0;
      assert frac * d <= 1.0 * d;
    }
  }

  /** Two fractions falling between the same pair of sorted neighbours interpolate in order. */
  lemma InterpolateSameCell(s: seq<real>, q1: real, q2: real)
    requires |s| > 0 && Sorted(s)
    requires 0.0 <= q1 <= q2 <= 1.0
    requires FloorIndex(|s|, q1) == FloorIndex(|s|, q2) && FloorIndex(|s|, q1) + 1 < |s|
    ensures Interpolate(s, q1) <= Interpolate(s, q2)
  {
    var lo := FloorIndex(|s|, q1);
    var a, d := s[lo], s[lo + 1] - s[lo];
    var f1 := Position(|s|, q1) - lo as real;
    var f2 := Position(|s|, q2) - lo as real;
    PositionMonotone(|s|, q1, q2);
    assert d >= 0.0;
    ScaleMonotone(f1, f2, d);
    calc {
      Interpolate(s, q1);
    ==
      a + f1 * d;
    <=
      a + f2 * d;
    ==
      Interpolate(s, q2);
    }
  }

  lemma FloorIndexMonotone(n: nat, q1: real, q2: real)
    requires n > 0 && 0.0 <= q1 <= q2 <= 1.0
    ensures FloorIndex(n, q1) <= FloorIndex(n, q2)
  {
    var lo1, lo2 := FloorIndex(n, q1), FloorIndex(n, q2);
    PositionMonotone(n, q1, q2);
    assert lo1 as real < (lo2 + 1) as real;
  }

  /** Fractions falling in different cells interpolate in order: the first value is at
      most the upper neighbour of its cell, which is at most the lower neighbour of the second. */
  lemma InterpolateAcrossCells(s: seq<real>, q1: real, q2: real)
    requires |s| > 0 && Sorted(s)
    requires 0.0 <= q1 <= q2 <= 1.0
    requires FloorIndex(|s|, q1) < FloorIndex(|s|, q2)
    ensures Interpolate(s, q1) <= Interpolate(s, q2)
  {
    var lo1, lo2 := FloorIndex(|s|, q1), FloorIndex(|s|, q2);
    InterpolateBetweenNeighbours(s, q1);
    InterpolateBetweenNeighbours(s, q2);
    assert lo1 + 1 <= lo2 < |s|;
    assert s[lo1 + 1] <= s[lo2];
  }

  /** Quantiles never decrease as q grows; in particular Q1 <= Q3, so an IQR is never negative. */
  lemma InterpolateMonotone(s: seq<real>, q1: real, q2: real)
    requires |s| > 0 && Sorted(s)
    requires 0.0 <= q1 <= q2 <= 1.0
    ensures Interpolate(s, q1) <= Interpolate(s, q2)
  {
    var lo1, lo2 := FloorIndex(|s|, q1), FloorIndex(|s|, q2);
    FloorIndexMonotone(|s|, q1, q2);
    if lo1 < lo2 {
      InterpolateAcrossCells(s, q1, q2);
    } else if lo1 + 1 < |s| {
      InterpolateSameCell(s, q1, q2);
    } else {
      assert Interpolate(s, q1) == s[lo1] == Interpolate(s, q2);
    }
  }

  lemma QuantileMonotone(xs: seq<real>, q1: real, q2: real)
    requires |xs| > 0 && 0.0 <= q1 <= q2 <= 1.0
    ensures Quantile(xs, q1).value <= Quantile(xs, q2).value
  {
    InterpolateMonotone(Sort(xs), q1, q2);
  }

  /** A quantile never exceeds a value that bounds the whole column from above,
      and never falls below one that bounds it from below. */
  lemma QuantileWithinBounds(xs: seq<real>, q: real, lower: real, upper: real)
    requires |xs| > 0 && 0.0 <= q <= 1.0
    requires forall i :: 0 <= i < |xs| ==> lower <= xs[i] <= upper
    ensures lower <= Quantile(xs, q).value <= upper
  {
    var s := Sort(xs);
    InterpolateBetweenNeighbours(s, q);
    forall k | 0 <= k < |s| ensures lower <= s[k] <= upper {
      assert s[k] in multiset(xs);
      var i :| 0 <= i < |xs| && xs[i] == s[k];
    }
  }

  /** On a constant column every quantile is that constant. */
  lemma QuantileOfConstant(xs: seq<real>, c: real, q: real)
    requires |xs| > 0 && 0.0 <= q <= 1.0 && AllEqual(xs, c)
    ensures Quantile(xs, q) == Some(c)
  {
    QuantileWithinBounds(xs, q, c, c);
  }

  // ---------------------------------------------------------------------------
  // Sample variance (ddof = 1), the square of pandas' std()
  // ---------------------------------------------------------------------------

  function Sq(x: real): real
  {
    x * x
  }

  lemma SqPositive(x: real)
    requires x != 0.0
    ensures Sq(x) > 0.0
  {
    if x > 0.0 {
      calc {
        Sq(x);
        x * x;
      > { assert x * x > 0.0 * x; }
        0.0 * x;
        0.0;
      }
    } else {
      calc {
        Sq(x);
        (-x) * (-x);
      > { assert (-x) * (-x) > 0.0 * (-x); }
        0.0 * (-x);
        0.0;
      }
    }
  }

  lemma SqNonNegative(x: real)
    ensures Sq(x) >= 0.0
  {
    if x != 0.0 {
      SqPositive(x);
    } else {
      assert Sq(x) == 0.0 * 0.0;
    }
  }

  /** Sum of squared deviations from m. */
  function SumSqDev(xs: seq<real>, m: real): real
  {
    if xs == [] then 0.0 else Sq(xs[0] - m) + SumSqDev(xs[1..], m)
  }

  /** pandas' `std()` squared: defined (not NaN) only for two or more values. */
  function SampleVariance(xs: seq<real>): (v: real)
    requires |xs| >= 2
  {
    SumSqDev(xs, Mean(xs)) / (|xs| - 1) as real
  }

  /** `std() > 0`, written without the square root: NaN (fewer than two values) compares false. */
  predicate SpreadPositive(xs: seq<real>)
  {
    |xs| >= 2 && SampleVariance(xs) > 0.0
  }

  lemma {:induction false} SumSqDevNonNegative(xs: seq<real>, m: real)
    ensures SumSqDev(xs, m) >= 0.0
  {
    if xs != [] {
      SumSqDevNonNegative(xs[1..], m);
      SqNonNegative(xs[0] - m);
    }
  }

  lemma {:induction false} SumSqDevOfEqual(xs: seq<real>, m: real)
    requires AllEqual(xs, m)
    ensures SumSqDev(xs, m) == 0.0
  {
    if xs != [] {
      SumSqDevOfEqual(xs[1..], m);
      assert Sq(xs[0] - m) == 0.0 * 0.0;
    }
  }

  lemma {:induction false} SumSqDevPositive(xs: seq<real>, m: real, i: nat)
    requires i < |xs| && xs[i] != m
    ensures SumSqDev(xs, m) > 0.0
  {
    SqNonNegative(xs[0] - m);
    if i == 0 {
      SumSqDevNonNegative(xs[1..], m);
      SqPositive(xs[0] - m);
    } else {
      SumSqDevPositive(xs[1..], m, i - 1);
    }
  }

  /** The squared deviations from m sum to zero exactly when every value is m. */
  lemma SumSqDevZeroIff(xs: seq<real>, m: real)
    ensures SumSqDev(xs, m) >= 0.0
    ensures SumSqDev(xs, m) == 0.0 <==> AllEqual(xs, m)
  {
    SumSqDevNonNegative(xs, m);
    if AllEqual(xs, m) {
      SumSqDevOfEqual(xs, m);
    } else {
      var i :| 0 <= i < |xs| && xs[i] != m;
      SumSqDevPositive(xs, m, i);
    }
  }

  /** The standard deviation is positive exactly when there are two or more values
      and they are not all the same. */
  lemma SpreadPositiveIff(xs: seq<real>)
    ensures SpreadPositive(xs) <==> |xs| >= 2 && !Constant(xs)
  {
    if |xs| >= 2 {
      var m := Mean(xs);
      SumSqDevZeroIff(xs, m);
      if Constant(xs) {
        assert AllEqual(xs, xs[0]);
        MeanOfConstant(xs, xs[0]);
      } else {
        assert !AllEqual(xs, m);
      }
    }
  }

  // ---------------------------------------------------------------------------
  // Rounding to two decimals (numpy rounds half to even on x * 100)
  // ---------------------------------------------------------------------------

  function Round2(x: real): (r: real)
    ensures -0.005 <= r - x <= 0.005
    ensures x >= 0.0 ==> r >= 0.0
    ensures (r * 100.0).Floor as real == r * 100.0
  {
    var scaled := x * 100.0;
    var f := scaled.Floor;
    var frac := scaled - f as real;
    var n := if frac < 0.5 then f
             else if frac > 0.5 then f + 1
             else if f % 2 == 0 then f else f + 1;
    n as real / 100.0
  }

  // ---------------------------------------------------------------------------
  // Float64 division
  // ---------------------------------------------------------------------------

  /** A float64 result that may leave the reals: a finite value, an infinity, or NaN. */
  datatype Rate = Finite(value: real) | PosInf | NegInf | NaN

  /** IEEE division of two finite numbers (a zero denominator is +0.0). */
  function Divide(a: real, b: real): (r: Rate)
    ensures b != 0.0 <==> r.Finite?
    ensures r == NaN <==> b == 0.0 && a == 0.0
    ensures r.Finite? ==> r.value * b == a
  {
    if b != 0.0 then Finite(a / b)
    else if a == 0.0 then NaN
    else if a > 0.0 then PosInf
    else NegInf
  }
}
