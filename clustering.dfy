/** The grouping page: a feature table per regional office (or per BNF
    chapter) built by a group-by and in-place column assignments, the guard
    that decides whether there is enough variation to cluster, the
    clustering itself (scaling and the clustering algorithm are an oracle),
    and the three-sentence explanation of a cluster. */
module Clustering {
  import opened Wrappers
  import opened Stats
  import opened Dataset

  /** The column the rows are grouped by. */
  datatype GroupKey = ByRegion | ByCategory

  function KeyOf(o: Observation, key: GroupKey): string
  {
    if key == ByRegion then o.region else o.category
  }

  function KeyColumn(rows: seq<Observation>, key: GroupKey): (ks: seq<string>)
    ensures |ks| == |rows|
  {
    seq(|rows|, i requires 0 <= i < |rows| => KeyOf(rows[i], key))
  }

  /** The groups, in order of first appearance. */
  function GroupKeys(rows: seq<Observation>, key: GroupKey): seq<string>
  {
    Distinct(KeyColumn(rows, key))
  }

  function GroupRows(rows: seq<Observation>, key: GroupKey, g: string): seq<Observation>
  {
    Filter(rows, (o: Observation) => KeyOf(o, key) == g)
  }

  /** A group that occurs has rows, each of them with that key. */
  lemma GroupRowsShape(rows: seq<Observation>, key: GroupKey, g: string)
    requires g in KeyColumn(rows, key)
    ensures var group := GroupRows(rows, key, g);
      |group| > 0 && forall k :: 0 <= k < |group| ==> group[k] in rows && KeyOf(group[k], key) == g
  {
    var group := GroupRows(rows, key, g);
    var i :| 0 <= i < |rows| && KeyColumn(rows, key)[i] == g;
    FilterSelects(rows, (o: Observation) => KeyOf(o, key) == g);
    assert rows[i] in group;
    forall k | 0 <= k < |group| ensures group[k] in rows {
      assert group[k] in multiset(group);
    }
  }

  /** `math.sqrt`, which pandas' std() applies to the sample variance. */
  type SqrtOracle = real -> real

  /** One row of `groupby(key).agg({'TOTAL_COST': ['sum', 'mean', 'std', 'count']}).round(2)`;
      the std is NaN (None) for a single-record group. */
  datatype GroupStats = GroupStats(key: string, total: real, mean: real, std: Option<real>, count: nat)

  function GroupAggregate(rows: seq<Observation>, key: GroupKey, g: string, sqrt: SqrtOracle): GroupStats
    requires g in KeyColumn(rows, key)
  {
    GroupRowsShape(rows, key, g);
    var costs := Costs(GroupRows(rows, key, g));
    GroupStats(
      g,
      Round2(Sum(costs)),
      Round2(Mean(costs)),
      if |costs| < 2 then None else Some(Round2(sqrt(SampleVariance(costs)))),
      |costs|)
  }

  function Aggregate(rows: seq<Observation>, key: GroupKey, sqrt: SqrtOracle): (agg: seq<GroupStats>)
    ensures |agg| == |GroupKeys(rows, key)|
  {
    var keys := GroupKeys(rows, key);
    DistinctMembers(KeyColumn(rows, key));
    seq(|keys|, i requires 0 <= i < |keys| => GroupAggregate(rows, key, keys[i], sqrt))
  }

  function AggTotals(agg: seq<GroupStats>): (r: seq<real>)
    ensures |r| == |agg|
  {
    seq(|agg|, i requires 0 <= i < |agg| => agg[i].total)
  }

  function AggMeans(agg: seq<GroupStats>): (r: seq<real>)
    ensures |r| == |agg|
  {
    seq(|agg|, i requires 0 <= i < |agg| => agg[i].mean)
  }

  function AggStds(agg: seq<GroupStats>): (r: seq<Option<real>>)
    ensures |r| == |agg|
  {
    seq(|agg|, i requires 0 <= i < |agg| => agg[i].std)
  }

  function AggCounts(agg: seq<GroupStats>): (r: seq<nat>)
    ensures |r| == |agg|
  {
    seq(|agg|, i requires 0 <= i < |agg| => agg[i].count)
  }

  /** The aggregated table: one row per group, no group twice, every group of
      the rows present, with the rounded sum, mean and std of the group's
      costs and the number of its records (at least one; std is missing
      exactly when there is only one). */
  lemma AggregateShape(rows: seq<Observation>, key: GroupKey, sqrt: SqrtOracle)
    ensures var agg := Aggregate(rows, key, sqrt);
      (forall i, j :: 0 <= i < j < |agg| ==> agg[i].key != agg[j].key) &&
      (forall k :: 0 <= k < |rows| ==> exists i :: 0 <= i < |agg| && agg[i].key == KeyOf(rows[k], key)) &&
      (forall i :: 0 <= i < |agg| ==>
        var costs := Costs(GroupRows(rows, key, agg[i].key));
        agg[i].count == |costs| && agg[i].count >= 1 &&
        agg[i].total == Round2(Sum(costs)) &&
        agg[i].mean == Round2(Mean(costs)) &&
        (agg[i].std.None? <==> agg[i].count == 1) &&
        (agg[i].std.Some? ==> agg[i].std.value == Round2(sqrt(SampleVariance(costs)))))
  {
    var keys := GroupKeys(rows, key);
    var agg := Aggregate(rows, key, sqrt);
    DistinctMembers(KeyColumn(rows, key));
    forall k | 0 <= k < |rows| ensures exists i :: 0 <= i < |agg| && agg[i].key == KeyOf(rows[k], key) {
      assert KeyColumn(rows, key)[k] in keys;
      var i :| 0 <= i < |keys| && keys[i] == KeyOf(rows[k], key);
      assert agg[i].key == keys[i];
    }
    forall i | 0 <= i < |agg| ensures agg[i].count >= 1 {
      GroupRowsShape(rows, key, keys[i]);
    }
  }

  // ---------------------------------------------------------------------------
  // The derived columns
  // ---------------------------------------------------------------------------

  /** `Total_Cost / Record_Count`, from the rounded total. */
  function PerRecord(totals: seq<real>, counts: seq<nat>): (r: seq<real>)
    requires |totals| == |counts| && forall i :: 0 <= i < |counts| ==> counts[i] > 0
    ensures |r| == |totals|
  {
    seq(|totals|, i requires 0 <= i < |totals| => totals[i] / counts[i] as real)
  }

  /** `Std_Cost / Mean_Cost` in float64: NaN where the std is missing. */
  function Variability(stds: seq<Option<real>>, means: seq<real>): (r: seq<Rate>)
    requires |stds| == |means|
    ensures |r| == |stds|
  {
    seq(|stds|, i requires 0 <= i < |stds| => if stds[i].None? then NaN else Divide(stds[i].value, means[i]))
  }

  /** `fillna(0)` on the std column. */
  function FillStd(stds: seq<Option<real>>): (r: seq<Option<real>>)
    ensures |r| == |stds|
  {
    seq(|stds|, i requires 0 <= i < |stds| => if stds[i].None? then Some(0.0) else stds[i])
  }

  /** `fillna(0)` on a float column: NaN becomes 0, the infinities stay. */
  function FillRate(xs: seq<Rate>): (r: seq<Rate>)
    ensures |r| == |xs|
  {
    seq(|xs|, i requires 0 <= i < |xs| => if xs[i] == NaN then Finite(0.0) else xs[i])
  }

  function Lift(xs: seq<real>): (r: seq<Rate>)
    ensures |r| == |xs|
  {
    seq(|xs|, i requires 0 <= i < |xs| => Finite(xs[i]))
  }

  /** The table the page builds: the aggregate, Cost_Per_Record and
      Cost_Variability assigned column by column, then fillna(0). The fields
      are the frame's columns. */
  class FeatureTable {
    var keys: seq<string>
    var totalCost: seq<real>
    var meanCost: seq<real>
    var stdCost: seq<Option<real>>
    var recordCount: seq<nat>
    var costPerRecord: seq<real>
    var costVariability: seq<Rate>
    var cluster: seq<int>

    /** Every column of the aggregate has one entry per group, and every group has a record. */
    ghost predicate Valid()
      reads this
    {
      |totalCost| == |keys| && |meanCost| == |keys| && |stdCost| == |keys| && |recordCount| == |keys| &&
      forall i :: 0 <= i < |recordCount| ==> recordCount[i] > 0
    }

    /** The group-by, `.round(2)`, the column renaming and `reset_index()`. */
    constructor (rows: seq<Observation>, key: GroupKey, sqrt: SqrtOracle)
      ensures Valid()
      ensures var agg := Aggregate(rows, key, sqrt);
        keys == GroupKeys(rows, key) && totalCost == AggTotals(agg) && meanCost == AggMeans(agg) &&
        stdCost == AggStds(agg) && recordCount == AggCounts(agg)
      ensures costPerRecord == [] && costVariability == [] && cluster == []
    {
      var agg := Aggregate(rows, key, sqrt);
      AggregateShape(rows, key, sqrt);
      DistinctMembers(KeyColumn(rows, key));
      keys := GroupKeys(rows, key);
      totalCost := AggTotals(agg);
      meanCost := AggMeans(agg);
      stdCost := AggStds(agg);
      recordCount := AggCounts(agg);
      costPerRecord := [];
      costVariability := [];
      cluster := [];
    }

    /** `features['Cost_Per_Record'] = features['Total_Cost'] / features['Record_Count']`. */
    method AddCostPerRecord()
      requires Valid()
      modifies this
      ensures Valid()
      ensures costPerRecord == PerRecord(totalCost, recordCount)
      ensures keys == old(keys) && totalCost == old(totalCost) && meanCost == old(meanCost)
      ensures stdCost == old(stdCost) && recordCount == old(recordCount)
      ensures costVariability == old(costVariability) && cluster == old(cluster)
    {
      costPerRecord := PerRecord(totalCost, recordCount);
    }

    /** `features['Cost_Variability'] = features['Std_Cost'] / features['Mean_Cost']`. */
    method AddCostVariability()
      requires Valid()
      modifies this
      ensures Valid()
      ensures costVariability == Variability(stdCost, meanCost)
      ensures keys == old(keys) && totalCost == old(totalCost) && meanCost == old(meanCost)
      ensures stdCost == old(stdCost) && recordCount == old(recordCount)
      ensures costPerRecord == old(costPerRecord) && cluster == old(cluster)
    {
      costVariability := Variability(stdCost, meanCost);
    }

    /** `features = features.fillna(0)`: only Std_Cost and Cost_Variability can hold NaN. */
    method FillNa()
      requires Valid()
      modifies this
      ensures Valid()
      ensures stdCost == FillStd(old(stdCost)) && costVariability == FillRate(old(costVariability))
      ensures keys == old(keys) && totalCost == old(totalCost) && meanCost == old(meanCost)
      ensures recordCount == old(recordCount) && costPerRecord == old(costPerRecord) && cluster == old(cluster)
    {
      stdCost := FillStd(stdCost);
      costVariability := FillRate(costVariability);
    }

    /** `X = features[feature_cols]`. */
    function FeatureColumns(): seq<seq<Rate>>
      reads this
    {
      [Lift(totalCost), Lift(meanCost), costVariability, Lift(costPerRecord)]
    }

    /** The guard, the scaler and the clustering algorithm; on success
      `features['Cluster'] = labels`. */
    method AssignClusters(nClusters: nat, clusterer: ClusterOracle) returns (outcome: ClusteringOutcome)
      requires Valid()
      modifies this
      ensures Valid()
      ensures outcome == Cluster(old(FeatureColumns()), |keys|, nClusters, clusterer)
      ensures cluster == (if outcome.Clustered? then outcome.labels else old(cluster))
      ensures keys == old(keys) && totalCost == old(totalCost) && meanCost == old(meanCost)
      ensures stdCost == old(stdCost) && recordCount == old(recordCount)
      ensures costPerRecord == old(costPerRecord) && costVariability == old(costVariability)
    {
      outcome := Cluster(FeatureColumns(), |keys|, nClusters, clusterer);
      if outcome.Clustered? {
        cluster := outcome.labels;
      }
    }
  }

  // ---------------------------------------------------------------------------
  // The variation guard and the clustering
  // ---------------------------------------------------------------------------

  predicate AllFinite(col: seq<Rate>)
  {
    forall i :: 0 <= i < |col| ==> col[i].Finite?
  }

  function Values(col: seq<Rate>): (r: seq<real>)
    requires forall i :: 0 <= i < |col| ==> col[i].Finite?
    ensures |r| == |col|
  {
    seq(|col|, i requires 0 <= i < |col| => col[i].value)
  }

  /** A column's `std() > 0`: an infinite entry makes the std NaN, and fewer
      than two entries leave it NaN, which the sum over columns skips. */
  predicate StdPositive(col: seq<Rate>)
  {
    (forall i :: 0 <= i < |col| ==> col[i].Finite?) && SpreadPositive(Values(col))
  }

  /** `len(X) > 0 and X.std().sum() > 0`: the stds are never negative and NaN
      ones are skipped, so the sum is positive exactly when one of them is. */
  predicate VariationGuard(columns: seq<seq<Rate>>, n: nat)
  {
    n > 0 && exists j :: 0 <= j < |columns| && StdPositive(columns[j])
  }

  /** `AgglomerativeClustering(n_clusters).fit_predict(StandardScaler().fit_transform(X))`
      on the feature rows; None when it raises. */
  type ClusterOracle = (seq<seq<real>>, nat) -> Option<seq<int>>

  datatype ClusteringOutcome = InsufficientVariation | Failed | Clustered(labels: seq<int>)

  /** The feature rows handed to the scaler, one per group. */
  function FeatureMatrix(columns: seq<seq<Rate>>, n: nat): (m: seq<seq<real>>)
    requires forall j :: 0 <= j < |columns| ==> |columns[j]| == n
    requires forall j, i :: 0 <= j < |columns| && 0 <= i < n ==> columns[j][i].Finite?
    ensures |m| == n && forall i :: 0 <= i < n ==> |m[i]| == |columns|
  {
    seq(n, i requires 0 <= i < n => seq(|columns|, j requires 0 <= j < |columns| => columns[j][i].value))
  }

  /** The branch the page takes. StandardScaler rejects infinite input, and a
      label column of the wrong length cannot be assigned; both raise. */
  function Cluster(columns: seq<seq<Rate>>, n: nat, nClusters: nat, clusterer: ClusterOracle): ClusteringOutcome
  {
    if !VariationGuard(columns, n) then InsufficientVariation
    else if !(forall j :: 0 <= j < |columns| ==> |columns[j]| == n && AllFinite(columns[j])) then Failed
    else
      match clusterer(FeatureMatrix(columns, n), nClusters)
      case None => Failed
      case Some(labels) => if |labels| != n then Failed else Clustered(labels)
  }

  /** The feature columns of the finished table, as functions of the rows. */
  function FeaturesOf(rows: seq<Observation>, key: GroupKey, sqrt: SqrtOracle): (columns: seq<seq<Rate>>)
    ensures |columns| == 4
  {
    var agg := Aggregate(rows, key, sqrt);
    AggregateShape(rows, key, sqrt);
    [Lift(AggTotals(agg)), Lift(AggMeans(agg)), FillRate(Variability(AggStds(agg), AggMeans(agg))),
     Lift(PerRecord(AggTotals(agg), AggCounts(agg)))]
  }

  /** `bnf_category_clustering` / `regional_clustering`: build the table
      column by column, then cluster when the guard allows. */
  method GroupClustering(rows: seq<Observation>, key: GroupKey, nClusters: nat, sqrt: SqrtOracle,
                         clusterer: ClusterOracle)
    returns (features: FeatureTable, outcome: ClusteringOutcome)
    ensures features.Valid() && features.keys == GroupKeys(rows, key)
    ensures features.FeatureColumns() == FeaturesOf(rows, key, sqrt)
    ensures outcome == Cluster(FeaturesOf(rows, key, sqrt), |GroupKeys(rows, key)|, nClusters, clusterer)
    ensures outcome.Clustered? ==> features.cluster == outcome.labels
    ensures !outcome.Clustered? ==> features.cluster == []
  {
    features := new FeatureTable(rows, key, sqrt);
    features.AddCostPerRecord();
    features.AddCostVariability();
    features.FillNa();
    assert features.FeatureColumns() == FeaturesOf(rows, key, sqrt);
    outcome := features.AssignClusters(nClusters, clusterer);
  }

  // ---------------------------------------------------------------------------
  // What the table and the guard promise
  // ---------------------------------------------------------------------------

  /** Cost_Per_Record times Record_Count gives back the rounded total. */
  lemma PerRecordFromTotal(totals: seq<real>, counts: seq<nat>)
    requires |totals| == |counts| && forall i :: 0 <= i < |counts| ==> counts[i] > 0
    ensures forall i :: 0 <= i < |totals| ==> PerRecord(totals, counts)[i] * counts[i] as real == totals[i]
  {
  }

  /** After fillna, Cost_Variability is 0 for a single-record group and
      otherwise Std_Cost / Mean_Cost; it is a finite number except where a
      positive std meets a mean that rounded to zero, which yields an infinity
      that fillna leaves in place. */
  lemma FilledVariability(stds: seq<Option<real>>, means: seq<real>)
    requires |stds| == |means|
    ensures var v := FillRate(Variability(stds, means));
      forall i :: 0 <= i < |stds| ==>
        (stds[i].None? ==> v[i] == Finite(0.0)) &&
        (v[i].Finite? <==> stds[i].None? || stds[i].value == 0.0 || means[i] != 0.0) &&
        (v[i].Finite? && stds[i].Some? && means[i] != 0.0 ==> v[i].value * means[i] == stds[i].value)
  {
  }

  /** Clustering runs only with at least two groups and a feature column, free
      of infinities, whose values are not all equal. */
  lemma VariationGuardIff(columns: seq<seq<Rate>>, n: nat)
    requires forall j :: 0 <= j < |columns| ==> |columns[j]| == n
    ensures VariationGuard(columns, n) <==>
      n >= 2 && exists j :: 0 <= j < |columns| && AllFinite(columns[j]) && !Constant(Values(columns[j]))
  {
    forall j | 0 <= j < |columns| && AllFinite(columns[j])
      ensures StdPositive(columns[j]) <==> n >= 2 && !Constant(Values(columns[j]))
    {
      SpreadPositiveIff(Values(columns[j]));
    }
    if n > 0 && exists j :: 0 <= j < |columns| && StdPositive(columns[j]) {
      var j :| 0 <= j < |columns| && StdPositive(columns[j]);
      assert AllFinite(columns[j]);
    }
  }

  /** A single group (or none) never clusters: its std is NaN in every column. */
  lemma SingleGroupNeverClusters(rows: seq<Observation>, key: GroupKey, nClusters: nat, sqrt: SqrtOracle,
                                 clusterer: ClusterOracle)
    requires |GroupKeys(rows, key)| <= 1
    ensures Cluster(FeaturesOf(rows, key, sqrt), |GroupKeys(rows, key)|, nClusters, clusterer) == InsufficientVariation
  {
    var columns := FeaturesOf(rows, key, sqrt);
    assert forall j :: 0 <= j < |columns| ==> |columns[j]| == |GroupKeys(rows, key)|;
    VariationGuardIff(columns, |GroupKeys(rows, key)|);
  }

  /** Clustering labels every group exactly once, and happens only when the
      guard holds and every feature is finite; the insufficient-variation
      branch is taken exactly when the guard fails. */
  lemma ClusteredShape(columns: seq<seq<Rate>>, n: nat, nClusters: nat, clusterer: ClusterOracle)
    ensures Cluster(columns, n, nClusters, clusterer) == InsufficientVariation <==> !VariationGuard(columns, n)
    ensures Cluster(columns, n, nClusters, clusterer).Clustered? ==>
      VariationGuard(columns, n) &&
      |Cluster(columns, n, nClusters, clusterer).labels| == n &&
      forall j :: 0 <= j < |columns| ==> AllFinite(columns[j])
  {
  }

  /** The matrix rows are the features in the order Total_Cost, Mean_Cost,
      Cost_Variability, Cost_Per_Record. */
  lemma FeatureOrder(rows: seq<Observation>, key: GroupKey, sqrt: SqrtOracle)
    ensures var c := FeaturesOf(rows, key, sqrt);
      var agg := Aggregate(rows, key, sqrt);
      (forall j :: 0 <= j < 4 ==> |c[j]| == |agg|) &&
      forall i :: 0 <= i < |agg| ==>
        agg[i].count >= 1 && c[0][i] == Finite(agg[i].total) && c[1][i] == Finite(agg[i].mean) &&
        c[3][i] == Finite(agg[i].total / agg[i].count as real) &&
        (agg[i].count == 1 ==> c[2][i] == Finite(0.0))
  {
    AggregateShape(rows, key, sqrt);
  }

  // ---------------------------------------------------------------------------
  // Why the categories of a cluster are grouped together
  // ---------------------------------------------------------------------------

  /** The means of the three features the explanation compares. */
  datatype FeatureMeans = FeatureMeans(total: real, variability: real, perRecord: real)

  const HigherTotal: string := "These categories have higher total costs than average."
  const LowerTotal: string := "These categories have lower total costs than average."
  const MoreVariable: string := "They show more variability in costs."
  const MoreStable: string := "They have more stable costs."
  const HigherPerRecord: string := "Each record tends to have a higher cost."
  const LowerPerRecord: string := "Each record tends to have a lower cost."

  /** Three sentences, each in its "higher" form exactly when the cluster's mean
      of that feature is strictly above the mean over all groups. */
  ghost predicate Explains(reasons: seq<string>, inCluster: FeatureMeans, overall: FeatureMeans)
  {
    |reasons| == 3 &&
    (reasons[0] == HigherTotal <==> inCluster.total > overall.total) &&
    (reasons[0] == LowerTotal <==> inCluster.total <= overall.total) &&
    (reasons[1] == MoreVariable <==> inCluster.variability > overall.variability) &&
    (reasons[1] == MoreStable <==> inCluster.variability <= overall.variability) &&
    (reasons[2] == HigherPerRecord <==> inCluster.perRecord > overall.perRecord) &&
    (reasons[2] == LowerPerRecord <==> inCluster.perRecord <= overall.perRecord)
  }

  /** `" ".join(parts)`. */
  function Join(parts: seq<string>): string
  {
    if parts == [] then ""
    else if |parts| == 1 then parts[0]
    else parts[0] + " " + Join(parts[1..])
  }

  /** The reasons list, appended sentence by sentence, and the joined text. */
  method GroupingReasons(inCluster: FeatureMeans, overall: FeatureMeans)
    returns (reasons: seq<string>, explanation: string)
    ensures Explains(reasons, inCluster, overall)
    ensures explanation == Join(reasons)
  {
    reasons := [];
    if inCluster.total > overall.total {
      reasons := reasons + [HigherTotal];
    } else {
      reasons := reasons + [LowerTotal];
    }
    if inCluster.variability > overall.variability {
      reasons := reasons + [MoreVariable];
    } else {
      reasons := reasons + [MoreStable];
    }
    if inCluster.perRecord > overall.perRecord {
      reasons := reasons + [HigherPerRecord];
    } else {
      reasons := reasons + [LowerPerRecord];
    }
    explanation := Join(reasons);
  }

  /** The explanation reads as its three sentences separated by single spaces. */
  lemma ExplanationSentences(reasons: seq<string>, inCluster: FeatureMeans, overall: FeatureMeans)
    requires Explains(reasons, inCluster, overall)
    ensures Join(reasons) == reasons[0] + " " + reasons[1] + " " + reasons[2]
    ensures reasons[0] in {HigherTotal, LowerTotal} && reasons[1] in {MoreVariable, MoreStable} &&
            reasons[2] in {HigherPerRecord, LowerPerRecord}
  {
    assert reasons[1..][1..] == [reasons[2]];
    assert Join(reasons[1..]) == reasons[1] + " " + reasons[2];
  }

  /** `cluster_data[feature_cols].mean()` over the groups carrying the label,
      next to the means over all groups. */
  function ClusterMeans(totals: seq<real>, variability: seq<real>, perRecord: seq<real>, labels: seq<int>, id: int)
    : FeatureMeans
    requires |totals| == |labels| && |variability| == |labels| && |perRecord| == |labels|
    requires id in labels
  {
    var mask := seq(|labels|, i requires 0 <= i < |labels| => labels[i] == id);
    SelectMembers(totals, mask);
    var k :| 0 <= k < |labels| && labels[k] == id;
    assert totals[k] in Select(totals, mask);
    SelectLength(totals, variability, mask);
    SelectLength(totals, perRecord, mask);
    FeatureMeans(Mean(Select(totals, mask)), Mean(Select(variability, mask)), Mean(Select(perRecord, mask)))
  }

  lemma {:induction false} SelectLength<S, T>(a: seq<S>, b: seq<T>, mask: seq<bool>)
    requires |a| == |mask| && |b| == |mask|
    ensures |Select(a, mask)| == |Select(b, mask)|
  {
    if mask != [] {
      var last := |mask| - 1;
      SelectLength(a[..last], b[..last], mask[..last]);
    }
  }

  /** A cluster holding every group is no higher than average in anything, so
      each sentence takes its "lower" form. */
  lemma WholeTableClusterIsAverage(totals: seq<real>, variability: seq<real>, perRecord: seq<real>,
                                   labels: seq<int>, id: int, reasons: seq<string>)
    requires |totals| == |labels| && |variability| == |labels| && |perRecord| == |labels|
    requires id in labels && forall i :: 0 <= i < |labels| ==> labels[i] == id
    requires Explains(reasons, ClusterMeans(totals, variability, perRecord, labels, id),
                      FeatureMeans(Mean(totals), Mean(variability), Mean(perRecord)))
    ensures reasons == [LowerTotal, MoreStable, LowerPerRecord]
  {
    var mask := seq(|labels|, i requires 0 <= i < |labels| => labels[i] == id);
    SelectAll(totals, mask);
    SelectAll(variability, mask);
    SelectAll(perRecord, mask);
  }
}
