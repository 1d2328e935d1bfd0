/** Training and classification with the exact distance (src/main.rs:616-807, src/ml/svdd.rs:147-210). */
module Svdd {
  import opened Moments
  import opened Rff
  import opened Sorting
  import opened Counting
  import opened Quantiles
  import opened Centroids
  import opened Windows

  const FEATURES := 12
  const MEDIAN_SUBSET := 2000

  datatype ModelConfig = ModelConfig(threshold: real, means: seq<real>, stddevs: seq<real>,
                                     centroid: seq<real>, projection: Projection)
  {
    predicate Shaped() {
      |means| == |stddevs| == FEATURES && projection.Shaped(FEATURES) && |centroid| == |projection.bVector|
    }
  }

  datatype InferenceResult = InferenceResult(distanceSq: real, isAnomaly: bool)

  /** The outcomes of train_model: an error value, an index out of bounds, or a model. */
  datatype Training = EmptySampleSet | IndexPanic | Trained(config: ModelConfig)

  function Features(e: Elementary, m: FlowMetrics): (x: seq<real>)
    ensures |x| == FEATURES
  {
    [m.meanLen, e.sqrt(m.varLen), m.packetRate, m.byteRate, m.fwdBwdRatio, m.synRatio, m.rstRatio, m.finRatio,
     m.pshRatio, m.ackRatio, m.meanInterval, e.sqrt(m.varInterval)]
  }

  function FeatureRows(e: Elementary, samples: seq<FlowMetrics>): (xs: seq<seq<real>>)
    ensures |xs| == |samples| && Rows(xs, FEATURES)
    ensures forall k :: 0 <= k < |xs| ==> xs[k] == Features(e, samples[k])
  {
    seq(|samples|, k requires 0 <= k < |samples| => Features(e, samples[k]))
  }

  /** The classifier's score. */
  function Score(e: Elementary, config: ModelConfig, m: FlowMetrics): (s: real)
    requires config.Shaped()
    ensures s >= 0.0
  {
    var z := Normalized(Features(e, m), config.means, Clamped(config.stddevs));
    DistSq(Projected(e, config.projection, z), config.centroid)
  }

  /** A feature's z-score: deviations are clamped at 1e-7. */
  function ZScore(config: ModelConfig, value: real, i: nat): real
    requires config.Shaped() && i < 12
  {
    (value - config.means[i]) / Max(config.stddevs[i], 0.0000001)
  }

  /** The twelve named features of a flow, normalised and weighed by a row of the projection. */
  function Weighed(e: Elementary, config: ModelConfig, m: FlowMetrics, row: seq<real>): real
    requires config.Shaped() && |row| == 12
  {
    row[0] * ZScore(config, m.meanLen, 0) + row[1] * ZScore(config, e.sqrt(m.varLen), 1)
    + row[2] * ZScore(config, m.packetRate, 2) + row[3] * ZScore(config, m.byteRate, 3)
    + row[4] * ZScore(config, m.fwdBwdRatio, 4) + row[5] * ZScore(config, m.synRatio, 5)
    + row[6] * ZScore(config, m.rstRatio, 6) + row[7] * ZScore(config, m.finRatio, 7)
    + row[8] * ZScore(config, m.pshRatio, 8) + row[9] * ZScore(config, m.ackRatio, 9)
    + row[10] * ZScore(config, m.meanInterval, 10) + row[11] * ZScore(config, e.sqrt(m.varInterval), 11)
  }

  /** The score of any model, from the named fields of the metrics: the squared distance between the centre and
      sqrt(2/D) * cos(row . features + bias), row by row. */
  lemma {:induction false} ScoreFromFields(e: Elementary, config: ModelConfig, m: FlowMetrics, phi: seq<real>)
    requires config.Shaped() && |phi| == |config.centroid|
    requires var p := config.projection;
             forall j :: 0 <= j < |phi| ==>
               phi[j] == e.sqrt(2.0 / |phi| as real) * e.cos(Weighed(e, config, m, p.wMatrix[j]) + p.bVector[j])
    ensures Score(e, config, m) == DistSq(phi, config.centroid)
  {
    hide DotUpTo, Weighed, DistSq;
    var z := Normalized(Features(e, m), config.means, Clamped(config.stddevs));
    forall j | 0 <= j < |phi| ensures phi[j] == Projected(e, config.projection, z)[j] {
      WeighedIsDot(e, config, m, config.projection.wMatrix[j]);
    }
    assert phi == Projected(e, config.projection, z);
  }

  lemma {:induction false} WeighedIsDot(e: Elementary, config: ModelConfig, m: FlowMetrics, row: seq<real>)
    requires config.Shaped() && |row| == 12
    ensures var z := Normalized(Features(e, m), config.means, Clamped(config.stddevs));
            DotUpTo(row, z, 12) == Weighed(e, config, m, row)
  {
    hide DotUpTo, Normalized, Clamped;
    var x, sds := Features(e, m), Clamped(config.stddevs);
    var z := Normalized(x, config.means, sds);
    forall i | 0 <= i < 12 ensures z[i] == ZScore(config, x[i], i) {
      NormalizedAt(x, config.means, config.stddevs, i);
    }
    DotOfTwelve(row, z);
  }

  lemma {:induction false} DotOfTwelve(a: seq<real>, b: seq<real>)
    requires |a| == |b| == 12
    ensures DotUpTo(a, b, 12)
            == a[0] * b[0] + a[1] * b[1] + a[2] * b[2] + a[3] * b[3] + a[4] * b[4] + a[5] * b[5]
               + a[6] * b[6] + a[7] * b[7] + a[8] * b[8] + a[9] * b[9] + a[10] * b[10] + a[11] * b[11]
  {
    DotOfSix(a, b);
    assert DotUpTo(a, b, 8) == DotUpTo(a, b, 7) + a[7] * b[7];
    assert DotUpTo(a, b, 10) == DotUpTo(a, b, 9) + a[9] * b[9];
  }

  /** Which field is feature i. */
  predicate IsFeature(e: Elementary, m: FlowMetrics, i: nat, value: real) {
    || (i == 0 && value == m.meanLen) || (i == 1 && value == e.sqrt(m.varLen))
    || (i == 2 && value == m.packetRate) || (i == 3 && value == m.byteRate)
    || (i == 4 && value == m.fwdBwdRatio) || (i == 5 && value == m.synRatio)
    || (i == 6 && value == m.rstRatio) || (i == 7 && value == m.finRatio)
    || (i == 8 && value == m.pshRatio) || (i == 9 && value == m.ackRatio)
    || (i == 10 && value == m.meanInterval) || (i == 11 && value == e.sqrt(m.varInterval))
  }

  /** Each of the twelve fields reaches the score: a model with one row that only looks at feature i. */
  lemma {:induction false} ScoreOfOneFeature(e: Elementary, config: ModelConfig, m: FlowMetrics, i: nat, value: real,
                                             angle: real)
    requires config.Shaped() && |config.centroid| == 1 && i < 12
    requires config.projection.wMatrix == [seq(12, k => if k == i then 1.0 else 0.0)]
    requires IsFeature(e, m, i, value)
    requires angle == (value - config.means[i]) / Max(config.stddevs[i], 0.0000001) + config.projection.bVector[0]
    ensures Score(e, config, m) == DistSq([e.sqrt(2.0) * e.cos(angle)], config.centroid)
  {
    hide DistSq, ZScore, Weighed, Score;
    var row, phi := config.projection.wMatrix[0], [e.sqrt(2.0) * e.cos(angle)];
    WeighedUnit(e, config, m, row, i, value);
    ZScoreIs(config, value, i);
    SameCosine(e, angle, Weighed(e, config, m, row) + config.projection.bVector[0]);
    assert 2.0 / 1 as real == 2.0;
    ScoreFromFields(e, config, m, phi);
  }

  lemma {:induction false} WeighedUnit(e: Elementary, config: ModelConfig, m: FlowMetrics, row: seq<real>, i: nat,
                                       value: real)
    requires config.Shaped() && i < 12 && row == seq(12, k => if k == i then 1.0 else 0.0)
    requires IsFeature(e, m, i, value)
    ensures Weighed(e, config, m, row) == ZScore(config, value, i)
  {
    hide ZScore;
  }

  lemma SameCosine(e: Elementary, x: real, y: real)
    requires x == y
    ensures e.cos(x) == e.cos(y)
  {
  }

  lemma ZScoreIs(config: ModelConfig, value: real, i: nat)
    requires config.Shaped() && i < 12
    ensures ZScore(config, value, i) == (value - config.means[i]) / Max(config.stddevs[i], 0.0000001)
  {
  }

  method EuclideanDistanceSq(a: seq<real>, b: seq<real>) returns (sum: real)
    requires |a| == |b|
    ensures sum == DistSq(a, b)
  {
    sum := 0.0;
    for i := 0 to |a|
      invariant sum == DistUpTo(a, b, i)
    {
      var diff := a[i] - b[i];
      sum := sum + diff * diff;
    }
  }

  method Predict(e: Elementary, config: ModelConfig, m: FlowMetrics) returns (r: InferenceResult)
    requires config.Shaped()
    ensures r.distanceSq == Score(e, config, m)
    ensures r.isAnomaly <==> r.distanceSq > config.threshold
  {
    var z := NormalizeFeatures(Features(e, m), config.means, config.stddevs);
    var phi := ProjectFeatures(e, config.projection, z);
    var distanceSq := EuclideanDistanceSq(phi, config.centroid);
    r := InferenceResult(distanceSq, distanceSq > config.threshold);
  }

  /** The trainer divides by the deviations as they are. */
  function NormalizedRows(xs: seq<seq<real>>, means: seq<real>, stddevs: seq<real>): (zs: seq<seq<real>>)
    requires |means| == |stddevs| && Rows(xs, |means|)
    requires forall i :: 0 <= i < |stddevs| ==> stddevs[i] != 0.0
    ensures |zs| == |xs| && Rows(zs, |means|)
  {
    seq(|xs|, k requires 0 <= k < |xs| => Normalized(xs[k], means, stddevs))
  }

  function ProjectedRows(e: Elementary, p: Projection, zs: seq<seq<real>>): (phis: seq<seq<real>>)
    requires p.Shaped(FEATURES) && Rows(zs, FEATURES)
    ensures |phis| == |zs| && Rows(phis, |p.bVector|)
    ensures forall k :: 0 <= k < |phis| ==> phis[k] == Projected(e, p, zs[k])
  {
    seq(|zs|, k requires 0 <= k < |zs| => Projected(e, p, zs[k]))
  }

  function Distances(phis: seq<seq<real>>, c: seq<real>): (ds: seq<real>)
    requires Rows(phis, |c|)
    ensures |ds| == |phis|
  {
    seq(|phis|, k requires 0 <= k < |phis| => DistSq(phis[k], c))
  }

  /** Squared distances of row k to the rows after it and before row l. */
  function PairsOf(zs: seq<seq<real>>, k: nat, l: nat): (ds: seq<real>)
    requires k < l <= |zs| && Rows(zs, FEATURES)
    ensures |ds| == l - k - 1
  {
    if l == k + 1 then [] else PairsOf(zs, k, l - 1) + [DistSq(zs[k], zs[l - 1])]
  }

  function PairsUpTo(zs: seq<seq<real>>, k: nat): (ds: seq<real>)
    requires k <= |zs| && Rows(zs, FEATURES)
    ensures 2 * |ds| == k * (2 * |zs| - k - 1)
  {
    if k == 0 then [] else PairsUpTo(zs, k - 1) + PairsOf(zs, k - 1, |zs|)
  }

  /** The median trick: 0.5 over the middle one of the pairwise squared distances. */
  function Gamma(pairs: seq<real>): (g: real)
    requires |pairs| > 0
    ensures g > 0.0 && 2.0 * (g * Max(Sorted(pairs)[|pairs| / 2], 0.0000001)) == 1.0
  {
    Inverse(Max(Sorted(pairs)[|pairs| / 2], 0.0000001));
    0.5 / Max(Sorted(pairs)[|pairs| / 2], 0.0000001)
  }

  lemma Inverse(x: real)
    requires x > 0.0
    ensures 0.5 / x > 0.0 && 2.0 * (0.5 / x * x) == 1.0
  {
    var g := 0.5 / x;
    assert g * x == 0.5;
    SignOfProduct(g, x);
  }

  /** The leading rows the median trick uses. */
  function Subset(zs: seq<seq<real>>): (r: seq<seq<real>>)
    ensures |r| == if |zs| < MEDIAN_SUBSET then |zs| else MEDIAN_SUBSET
  {
    if |zs| < MEDIAN_SUBSET then zs else zs[..MEDIAN_SUBSET]
  }

  /** The model of two or more samples. The random draws, a function of gamma, are a parameter. */
  function TrainedModel(e: Elementary, samples: seq<FlowMetrics>, draw: real -> Projection): (config: ModelConfig)
    requires |samples| >= 2 && forall g :: draw(g).Shaped(FEATURES)
    ensures config.Shaped()
  {
    var xs := FeatureRows(e, samples);
    var means, stddevs := Means(xs, FEATURES), StdDevs(e, xs, FEATURES);
    var zs := NormalizedRows(xs, means, stddevs);
    var projection := draw(Gamma(PairsUpTo(Subset(zs), |Subset(zs)|)));
    var phis := ProjectedRows(e, projection, zs);
    var centroid := Means(phis, |projection.bVector|);
    ModelConfig(Threshold(Distances(phis, centroid)), means, stddevs, centroid, projection)
  }

  /** The projections of the training samples under the model. */
  function TrainingProjections(e: Elementary, config: ModelConfig, samples: seq<FlowMetrics>): (phis: seq<seq<real>>)
    requires config.Shaped()
    ensures |phis| == |samples| && Rows(phis, |config.centroid|)
  {
    seq(|samples|, k requires 0 <= k < |samples| =>
      Projected(e, config.projection, Normalized(Features(e, samples[k]), config.means, Clamped(config.stddevs))))
  }

  method PairDistances(zs: seq<seq<real>>) returns (pairs: seq<real>)
    requires Rows(zs, FEATURES)
    ensures pairs == PairsUpTo(zs, |zs|)
  {
    pairs := [];
    for k := 0 to |zs|
      invariant pairs == PairsUpTo(zs, k)
    {
      for l := k + 1 to |zs|
        invariant pairs == PairsUpTo(zs, k) + PairsOf(zs, k, l)
      {
        var distSq := EuclideanDistanceSq(zs[k], zs[l]);
        pairs := pairs + [distSq];
      }
    }
  }

  method TrainModel(e: Elementary, samples: seq<FlowMetrics>, draw: real -> Projection) returns (r: Training)
    requires forall g :: draw(g).Shaped(FEATURES)
    ensures |samples| == 0 ==> r == EmptySampleSet
    ensures |samples| == 1 ==> r == IndexPanic
    ensures |samples| >= 2 ==> r == Trained(TrainedModel(e, samples, draw))
  {
    hide FeatureRows, Means, StdDevs, NormalizedRows, ProjectedRows, Distances, PairsUpTo, Gamma, Sorted,
      ThresholdIndex;
    var n := |samples|;
    if n == 0 {
      return EmptySampleSet;
    }
    var xs := ExtractFeatures(e, samples);
    var means := ColumnMeans(xs, FEATURES);
    var stddevs := ColumnDeviations(e, xs, means);
    var zs := NormalizeAll(xs, means, stddevs);
    var pairs := PairDistances(Subset(zs));
    if |pairs| / 2 >= |pairs| {
      return IndexPanic;
    }
    var projection := draw(Gamma(pairs));
    var phis := ProjectAll(e, projection, zs);
    var centroid := ColumnMeans(phis, |projection.bVector|);
    var distances := DistancesTo(phis, centroid);
    var threshold := Sorted(distances)[ThresholdIndex(n)];
    r := Trained(ModelConfig(threshold, means, stddevs, centroid, projection));
  }

  /** The trainer repeats this extraction in each of its passes. */
  method ExtractFeatures(e: Elementary, samples: seq<FlowMetrics>) returns (xs: seq<seq<real>>)
    ensures xs == FeatureRows(e, samples)
  {
    xs := [];
    for k := 0 to |samples|
      invariant xs == FeatureRows(e, samples)[..k]
    {
      xs := xs + [Features(e, samples[k])];
    }
  }

  method NormalizeAll(xs: seq<seq<real>>, means: seq<real>, stddevs: seq<real>) returns (zs: seq<seq<real>>)
    requires |means| == |stddevs| && Rows(xs, |means|)
    requires forall i :: 0 <= i < |stddevs| ==> stddevs[i] != 0.0
    ensures zs == NormalizedRows(xs, means, stddevs)
  {
    zs := [];
    for k := 0 to |xs|
      invariant zs == NormalizedRows(xs, means, stddevs)[..k]
    {
      var z := new real[|means|](_ => 0.0);
      for i := 0 to |means|
        invariant forall l :: 0 <= l < i ==> z[l] == (xs[k][l] - means[l]) / stddevs[l]
      {
        z[i] := (xs[k][i] - means[i]) / stddevs[i];
      }
      assert z[..] == Normalized(xs[k], means, stddevs);
      zs := zs + [z[..]];
    }
  }

  method ProjectAll(e: Elementary, p: Projection, zs: seq<seq<real>>) returns (phis: seq<seq<real>>)
    requires p.Shaped(FEATURES) && Rows(zs, FEATURES)
    ensures phis == ProjectedRows(e, p, zs)
  {
    phis := [];
    for k := 0 to |zs|
      invariant phis == ProjectedRows(e, p, zs)[..k]
    {
      var phi := ProjectFeatures(e, p, zs[k]);
      phis := phis + [phi];
    }
  }

  method DistancesTo(phis: seq<seq<real>>, c: seq<real>) returns (ds: seq<real>)
    requires Rows(phis, |c|)
    ensures ds == Distances(phis, c)
  {
    ds := [];
    for k := 0 to |phis|
      invariant ds == Distances(phis, c)[..k]
    {
      var sum := EuclideanDistanceSq(phis[k], c);
      ds := ds + [sum];
    }
  }

  /** The distance of rows k < l stands at one position of its own: after the pairs of the rows before k. With the
      length n * (n - 1) / 2 of the list, every pair is listed exactly once. */
  lemma {:induction false} PairAt(zs: seq<seq<real>>, k: nat, l: nat, m: nat)
    requires k < l < |zs| && k < m <= |zs| && Rows(zs, FEATURES)
    ensures var i := |PairsUpTo(zs, k)| + l - k - 1;
            i < |PairsUpTo(zs, m)| && PairsUpTo(zs, m)[i] == DistSq(zs[k], zs[l])
    decreases m
  {
    hide DistSq;
    if m == k + 1 {
      PairOfRow(zs, k, l, |zs|);
    } else {
      PairAt(zs, k, l, m - 1);
    }
  }

  lemma {:induction false} PairOfRow(zs: seq<seq<real>>, k: nat, l: nat, m: nat)
    requires k < l < m <= |zs| && Rows(zs, FEATURES)
    ensures PairsOf(zs, k, m)[l - k - 1] == DistSq(zs[k], zs[l])
    decreases m
  {
    if l < m - 1 {
      PairOfRow(zs, k, l, m - 1);
    }
  }

  /** The pairs of rows k < l, k below the given bound, whose squared distance satisfies p. */
  ghost function PairsWhere(zs: seq<seq<real>>, bound: nat, p: real -> bool): set<(nat, nat)>
    requires bound <= |zs| && Rows(zs, FEATURES)
  {
    set k: nat, l: nat | 0 <= k < bound && k < l < |zs| && p(DistSq(zs[k], zs[l])) :: (k, l)
  }

  /** The pairs of row k with the rows before l. */
  ghost function PairsInRow(zs: seq<seq<real>>, k: nat, l: nat, p: real -> bool): set<(nat, nat)>
    requires k < l <= |zs| && Rows(zs, FEATURES)
  {
    set m: nat | k < m < l && p(DistSq(zs[k], zs[m])) :: (k, m)
  }

  lemma {:induction false} RowCounts(zs: seq<seq<real>>, k: nat, l: nat, p: real -> bool)
    requires k < l <= |zs| && Rows(zs, FEATURES)
    ensures |PairsInRow(zs, k, l, p)| == Count(PairsOf(zs, k, l), p)
    decreases l
  {
    hide DistSq;
    if l == k + 1 {
      assert PairsInRow(zs, k, l, p) == {};
    } else {
      RowCounts(zs, k, l - 1, p);
      var d := DistSq(zs[k], zs[l - 1]);
      CountAppend(PairsOf(zs, k, l - 1), d, p);
      var smaller := PairsInRow(zs, k, l - 1, p);
      assert PairsInRow(zs, k, l, p) == if p(d) then smaller + {(k, l - 1)} else smaller;
    }
  }

  /** Counting in the list of distances is counting pairs of rows. */
  lemma {:induction false} PairCounts(zs: seq<seq<real>>, bound: nat, p: real -> bool)
    requires bound <= |zs| && Rows(zs, FEATURES)
    ensures |PairsWhere(zs, bound, p)| == Count(PairsUpTo(zs, bound), p)
  {
    hide DistSq, PairsInRow, PairsOf, Count, PairsWhere;
    if bound == 0 {
      NoPairs(zs, p);
    } else {
      PairCounts(zs, bound - 1, p);
      RowCounts(zs, bound - 1, |zs|, p);
      CountConcat(PairsUpTo(zs, bound - 1), PairsOf(zs, bound - 1, |zs|), p);
      PairsOfLastRow(zs, bound, p);
    }
  }

  lemma {:induction false} PairsOfLastRow(zs: seq<seq<real>>, bound: nat, p: real -> bool)
    requires 0 < bound <= |zs| && Rows(zs, FEATURES)
    ensures var before, row := PairsWhere(zs, bound - 1, p), PairsInRow(zs, bound - 1, |zs|, p);
            PairsWhere(zs, bound, p) == before + row && before !! row
  {
    hide DistSq;
  }

  lemma {:induction false} NoPairs(zs: seq<seq<real>>, p: real -> bool)
    requires Rows(zs, FEATURES)
    ensures PairsWhere(zs, 0, p) == {} && Count(PairsUpTo(zs, 0), p) == 0
  {
  }

  /** Every position of the list belongs to a pair. */
  lemma {:induction false} PairBehind(zs: seq<seq<real>>, bound: nat, i: nat) returns (k: nat, l: nat)
    requires bound <= |zs| && Rows(zs, FEATURES) && i < |PairsUpTo(zs, bound)|
    ensures k < l < |zs| && PairsUpTo(zs, bound)[i] == DistSq(zs[k], zs[l])
  {
    hide DistSq;
    var before := PairsUpTo(zs, bound - 1);
    if i < |before| {
      k, l := PairBehind(zs, bound - 1, i);
    } else {
      k, l := bound - 1, bound + (i - |before|);
      PairOfRow(zs, k, l, |zs|);
    }
  }

  /** The pairs of rows farther apart than m, and those closer. */
  ghost function FartherPairs(zs: seq<seq<real>>, m: real): set<(nat, nat)>
    requires Rows(zs, FEATURES)
  {
    set k: nat, l: nat | 0 <= k < |zs| && k < l < |zs| && DistSq(zs[k], zs[l]) > m :: (k, l)
  }

  ghost function CloserPairs(zs: seq<seq<real>>, m: real): set<(nat, nat)>
    requires Rows(zs, FEATURES)
  {
    set k: nat, l: nat | 0 <= k < |zs| && k < l < |zs| && DistSq(zs[k], zs[l]) < m :: (k, l)
  }

  lemma SamePairs(zs: seq<seq<real>>, m: real)
    requires Rows(zs, FEATURES)
    ensures PairsWhere(zs, |zs|, Above(m)) == FartherPairs(zs, m)
    ensures PairsWhere(zs, |zs|, Below(m)) == CloserPairs(zs, m)
  {
  }

  /** gamma is 0.5 over the clamped squared distance of rows k < l; fewer than half of all pairs are farther apart
      than these two, and at most half are closer. */
  ghost predicate MedianTrick(zs: seq<seq<real>>, gamma: real, k: nat, l: nat)
    requires Rows(zs, FEATURES)
  {
    && k < l < |zs|
    && var m, pairs := DistSq(zs[k], zs[l]), |zs| * (|zs| - 1);
       && 2.0 * gamma * Max(m, 0.0000001) == 1.0
       && 4 * |FartherPairs(zs, m)| < pairs
       && 4 * |CloserPairs(zs, m)| <= pairs
  }

  lemma {:induction false} GammaFromMedian(zs: seq<seq<real>>) returns (k: nat, l: nat)
    requires |zs| >= 2 && Rows(zs, FEATURES)
    ensures PairsUpTo(zs, |zs|) != [] && MedianTrick(zs, Gamma(PairsUpTo(zs, |zs|)), k, l)
  {
    hide DistSq, PairsWhere, FartherPairs, CloserPairs, Sorted, Count;
    AllPairs(zs);
    var list := PairsUpTo(zs, |zs|);
    var i := MiddleIsMedian(list);
    k, l := PairBehind(zs, |zs|, i);
    PairCounts(zs, |zs|, Above(list[i]));
    PairCounts(zs, |zs|, Below(list[i]));
    SamePairs(zs, list[i]);
  }

  lemma {:induction false} AllPairs(zs: seq<seq<real>>)
    requires |zs| >= 2 && Rows(zs, FEATURES)
    ensures 2 * |PairsUpTo(zs, |zs|)| == |zs| * (|zs| - 1) > 0
  {
    hide PairsUpTo, PairsOf;
    assert |zs| * (2 * |zs| - |zs| - 1) == |zs| * (|zs| - 1);
  }

  /** The trainer and the classifier compute the same projections, centre and threshold: the classifier's
      clamp on the deviations repeats the trainer's. */
  lemma TrainerAgreesWithClassifier(e: Elementary, samples: seq<FlowMetrics>, draw: real -> Projection)
    requires |samples| >= 2 && forall g :: draw(g).Shaped(FEATURES)
    ensures var config := TrainedModel(e, samples, draw);
            var phis := TrainingProjections(e, config, samples);
            config.centroid == Means(phis, |config.centroid|)
            && config.threshold == Threshold(Distances(phis, config.centroid))
  {
    var config := TrainedModel(e, samples, draw);
    var xs := FeatureRows(e, samples);
    ClampIsIdempotent(config.stddevs);
    assert TrainingProjections(e, config, samples)
        == ProjectedRows(e, config.projection, NormalizedRows(xs, config.means, config.stddevs));
  }

  /** What the classifier makes of a training sample before projecting it. */
  function TrainingInputs(e: Elementary, config: ModelConfig, samples: seq<FlowMetrics>): (zs: seq<seq<real>>)
    requires config.Shaped()
    ensures |zs| == |samples| && Rows(zs, FEATURES)
  {
    seq(|samples|, k requires 0 <= k < |samples| =>
      Normalized(Features(e, samples[k]), config.means, Clamped(config.stddevs)))
  }

  lemma TrainedStatistics(e: Elementary, samples: seq<FlowMetrics>, draw: real -> Projection)
    requires |samples| >= 2 && forall g :: draw(g).Shaped(FEATURES)
    ensures var config, xs := TrainedModel(e, samples, draw), FeatureRows(e, samples);
            && config.means == Means(xs, FEATURES)
            && Clamped(config.stddevs) == config.stddevs == StdDevs(e, xs, FEATURES)
  {
    ClampIsIdempotent(TrainedModel(e, samples, draw).stddevs);
  }

  /** The median trick of a trained model: its projection is drawn with 0.5 over the clamped median of the squared
      distances between the first 2000 of its training inputs. */
  lemma {:induction false} ProjectionFromMedian(e: Elementary, samples: seq<FlowMetrics>, draw: real -> Projection)
    returns (gamma: real, k: nat, l: nat)
    requires |samples| >= 2 && forall g :: draw(g).Shaped(FEATURES)
    ensures var config := TrainedModel(e, samples, draw);
            var inputs := TrainingInputs(e, config, samples);
            var rows := if |inputs| <= 2000 then inputs else inputs[..2000];
            config.projection == draw(gamma) && MedianTrick(rows, gamma, k, l)
  {
    hide MedianTrick, PairsUpTo, Gamma, TrainedModel, TrainingInputs, Subset;
    var inputs := TrainingInputs(e, TrainedModel(e, samples, draw), samples);
    var rows := Subset(inputs);
    SubsetIsLeading(inputs);
    DrawnProjection(e, samples, draw);
    k, l := GammaFromMedian(rows);
    gamma := Gamma(PairsUpTo(rows, |rows|));
  }

  lemma SubsetIsLeading(zs: seq<seq<real>>)
    requires Rows(zs, FEATURES)
    ensures Subset(zs) == (if |zs| <= 2000 then zs else zs[..2000]) && Rows(Subset(zs), FEATURES)
  {
  }

  lemma {:induction false} DrawnProjection(e: Elementary, samples: seq<FlowMetrics>, draw: real -> Projection)
    requires |samples| >= 2 && forall g :: draw(g).Shaped(FEATURES)
    ensures var rows := Subset(TrainingInputs(e, TrainedModel(e, samples, draw), samples));
            && |rows| >= 2 && Rows(rows, FEATURES) && PairsUpTo(rows, |rows|) != []
            && TrainedModel(e, samples, draw).projection == draw(Gamma(PairsUpTo(rows, |rows|)))
  {
    hide PairsUpTo, Gamma, Means, StdDevs, Clamped, Features, Distances, ProjectedRows, Threshold, Normalized;
    var config := TrainedModel(e, samples, draw);
    TrainedStatistics(e, samples, draw);
    var zs := NormalizedRows(FeatureRows(e, samples), config.means, config.stddevs);
    assert zs == TrainingInputs(e, config, samples);
    AllPairs(Subset(zs));
  }

  /** Under its model a training set is standardised: every feature sums to zero, and its squares sum to the
      number of samples exactly when the feature's deviation is at least 1e-7, to less otherwise. */
  lemma TrainingSetIsStandardised(e: Elementary, samples: seq<FlowMetrics>, draw: real -> Projection, i: nat)
    requires e.Valid() && |samples| >= 2 && (forall g :: draw(g).Shaped(FEATURES)) && i < FEATURES
    ensures var z := Column(TrainingInputs(e, TrainedModel(e, samples, draw), samples), i);
            var root := e.sqrt(VarianceOf(Column(FeatureRows(e, samples), i)));
            && Sum(z) == 0.0
            && SumSq(z) * Square(Max(root, 0.0000001)) == |samples| as real * Square(root)
            && SumSq(z) <= |samples| as real
            && (SumSq(z) == |samples| as real <==> root >= 0.0000001)
  {
    hide Sum, SumSq, VarianceOf, MeanOf, Features, Elementary.Valid, TrainedModel, Means, StdDevs, Clamped;
    var config := TrainedModel(e, samples, draw);
    TrainedStatistics(e, samples, draw);
    ZScoresAreStandard(e, Column(FeatureRows(e, samples), i), Column(TrainingInputs(e, config, samples), i));
  }

  /** The samples that the classifier flags. */
  function Flagged(e: Elementary, config: ModelConfig, samples: seq<FlowMetrics>): nat
    requires config.Shaped()
  {
    if samples == [] then 0
    else (if Score(e, config, samples[0]) > config.threshold then 1 else 0) + Flagged(e, config, samples[1..])
  }

  lemma {:induction false} FlaggedCounts(e: Elementary, config: ModelConfig, samples: seq<FlowMetrics>)
    requires config.Shaped()
    ensures Flagged(e, config, samples)
            == CountAbove(Distances(TrainingProjections(e, config, samples), config.centroid), config.threshold)
  {
    if samples != [] {
      FlaggedCounts(e, config, samples[1..]);
      var ds := Distances(TrainingProjections(e, config, samples), config.centroid);
      assert ds[1..] == Distances(TrainingProjections(e, config, samples[1..]), config.centroid);
      assert ds[0] == Score(e, config, samples[0]);
    }
  }

  /** Run over its own training set, a trained model flags strictly fewer than 5% of the samples. */
  lemma FewTrainingSamplesFlagged(e: Elementary, samples: seq<FlowMetrics>, draw: real -> Projection)
    requires |samples| >= 2 && forall g :: draw(g).Shaped(FEATURES)
    ensures 20 * Flagged(e, TrainedModel(e, samples, draw), samples) < |samples|
  {
    var config := TrainedModel(e, samples, draw);
    TrainerAgreesWithClassifier(e, samples, draw);
    FlaggedCounts(e, config, samples);
    FewExceedThreshold(Distances(TrainingProjections(e, config, samples), config.centroid));
  }

  /** The trained centre minimises the total squared distance to the projected samples, and the mean of
      those distances is the mean squared norm less the squared norm of the centre. */
  lemma TrainedCentroidIsBest(e: Elementary, samples: seq<FlowMetrics>, draw: real -> Projection)
    requires |samples| >= 2 && forall g :: draw(g).Shaped(FEATURES)
    ensures var config := TrainedModel(e, samples, draw);
            var phis, c := TrainingProjections(e, config, samples), config.centroid;
            && TotalDistance(phis, c) / |samples| as real == TotalNorm(phis) / |samples| as real - NormSq(c)
            && forall y {:trigger TotalDistance(phis, y)} :: |y| == |c| ==>
                 && TotalDistance(phis, c) <= TotalDistance(phis, y)
                 && (TotalDistance(phis, c) == TotalDistance(phis, y) <==> y == c)
  {
    hide TrainedModel, TotalDistance, TotalNorm, NormSq, DistSq, Projected, Normalized, Features, Clamped;
    var config := TrainedModel(e, samples, draw);
    var phis, c := TrainingProjections(e, config, samples), config.centroid;
    TrainerAgreesWithClassifier(e, samples, draw);
    MeanDistance(phis, |c|);
    forall y | |y| == |c|
      ensures TotalDistance(phis, c) <= TotalDistance(phis, y)
      ensures TotalDistance(phis, c) == TotalDistance(phis, y) <==> y == c
    {
      CentroidMinimises(phis, y);
    }
  }

  /** A centre that is the mean of projections is, like them, within the scale in every coordinate. */
  lemma TrainedCentroidWithin(e: Elementary, samples: seq<FlowMetrics>, draw: real -> Projection)
    requires e.Valid() && |samples| >= 2 && forall g :: draw(g).Shaped(FEATURES)
    ensures var config := TrainedModel(e, samples, draw);
            Within(config.centroid, e.Scale(|config.centroid|))
  {
    hide TrainedModel, Features, Projected, Normalized, Clamped, Means, Within, Distances, Elementary.Valid,
      Elementary.Scale;
    var config := TrainedModel(e, samples, draw);
    var d := |config.centroid|;
    var phis := TrainingProjections(e, config, samples);
    TrainerAgreesWithClassifier(e, samples, draw);
    forall k | 0 <= k < |phis| ensures Within(phis[k], e.Scale(d)) {
      ProjectedWithin(e, config.projection,
                      Normalized(Features(e, samples[k]), config.means, Clamped(config.stddevs)));
    }
    MeansWithin(phis, d, e.Scale(d));
  }

  /** Whatever metrics it is shown, a trained model scores them in [0, 8]. */
  lemma ScoresAreBounded(e: Elementary, samples: seq<FlowMetrics>, draw: real -> Projection, m: FlowMetrics)
    requires e.Valid() && |samples| >= 2 && forall g :: draw(g).Shaped(FEATURES)
    ensures 0.0 <= Score(e, TrainedModel(e, samples, draw), m) <= 8.0
  {
    hide TrainedModel, Features, Projected, Normalized, Clamped, Within, Square, DistUpTo, Elementary.Valid,
      Elementary.Scale;
    var config := TrainedModel(e, samples, draw);
    var d := |config.centroid|;
    TrainedCentroidWithin(e, samples, draw);
    var z := Normalized(Features(e, m), config.means, Clamped(config.stddevs));
    ProjectedWithin(e, config.projection, z);
    DistanceWithin(Projected(e, config.projection, z), config.centroid, e.Scale(d), d);
    ScaleSquared(e, d);
    FourTimes(d as real, Square(e.Scale(d)));
  }

  lemma FourTimes(d: real, x: real)
    requires d * x == 2.0
    ensures d * (4.0 * x) == 8.0
  {
  }
}
