/** The second trainer and classifier, which replace ||phi||^2 by 1 in the expanded distance
    (crates/r-nads-bin/src/main.rs:347-496, crates/r-nads-inference/src/lib.rs:51-95). */
module ExpandedSvdd {
  import opened Packets
  import opened Moments
  import opened Rff
  import opened Sorting
  import opened Quantiles
  import opened Centroids
  import opened Windows

  const FEATURES := 6

  datatype ModelConfig = ModelConfig(means: seq<real>, stddevs: seq<real>, projection: Projection,
                                     weights: seq<real>, weightsNormSq: real, threshold: real)
  {
    predicate Shaped() {
      |means| == |stddevs| == FEATURES && projection.Shaped(FEATURES) && |weights| == |projection.bVector|
    }
  }

  datatype InferenceResult = InferenceResult(distance: real, isAnomaly: bool)

  function Features(e: Elementary, m: FlowMetrics): (x: seq<real>)
    ensures |x| == FEATURES
  {
    [m.meanLen, e.sqrt(m.varLen), m.packetRate, m.byteRate, m.fwdBwdRatio, m.synRatio]
  }

  /** 1 - 2<w, phi> + normSq: the exact distance with ||phi||^2 taken to be 1. */
  function RawDistance(weights: seq<real>, normSq: real, phi: seq<real>): real
    requires |weights| == |phi|
  {
    1.0 - 2.0 * DotUpTo(weights, phi, |phi|) + normSq
  }

  function ExpandedDistance(weights: seq<real>, normSq: real, phi: seq<real>): real
    requires |weights| == |phi|
  {
    Max(RawDistance(weights, normSq, phi), 0.0)
  }

  /** The projection the classifier forms for m. */
  function Phi(e: Elementary, config: ModelConfig, m: FlowMetrics): (phi: seq<real>)
    requires config.Shaped()
    ensures |phi| == |config.weights|
  {
    Projected(e, config.projection, Normalized(Features(e, m), config.means, Clamped(config.stddevs)))
  }

  function Score(e: Elementary, config: ModelConfig, m: FlowMetrics): real
    requires config.Shaped()
  {
    ExpandedDistance(config.weights, config.weightsNormSq, Phi(e, config, m))
  }

  /** Projection and inner product with the weights in one loop. */
  method WeighProjection(e: Elementary, p: Projection, z: seq<real>, weights: seq<real>) returns (wDotPhi: real)
    requires p.Shaped(|z|) && |weights| == |p.bVector|
    ensures wDotPhi == DotUpTo(weights, Projected(e, p, z), |weights|)
  {
    hide Projected;
    var d := |p.bVector|;
    var scale := e.Scale(d);
    wDotPhi := 0.0;
    for j := 0 to d
      invariant wDotPhi == DotUpTo(weights, Projected(e, p, z), j)
    {
      ProjectedAt(e, p, z, j);
      var projection := Dot(p.wMatrix[j], z);
      projection := projection + p.bVector[j];
      var phiJ := scale * e.cos(projection);
      wDotPhi := wDotPhi + weights[j] * phiJ;
    }
  }

  lemma ProjectedAt(e: Elementary, p: Projection, z: seq<real>, j: nat)
    requires p.Shaped(|z|) && j < |p.bVector|
    ensures Projected(e, p, z)[j] == e.Scale(|p.bVector|) * e.cos(DotUpTo(p.wMatrix[j], z, |z|) + p.bVector[j])
  {
  }

  method Predict(e: Elementary, config: ModelConfig, m: FlowMetrics) returns (r: InferenceResult)
    requires config.Shaped()
    ensures r.distance == e.sqrt(Score(e, config, m))
    ensures r.isAnomaly <==> Score(e, config, m) > config.threshold
  {
    var z := NormalizeFeatures(Features(e, m), config.means, config.stddevs);
    var wDotPhi := WeighProjection(e, config.projection, z, config.weights);
    var distSq := Max(1.0 - 2.0 * wDotPhi + config.weightsNormSq, 0.0);
    r := InferenceResult(e.sqrt(distSq), distSq > config.threshold);
  }

  function ZScore(config: ModelConfig, value: real, i: nat): real
    requires config.Shaped() && i < 6
  {
    (value - config.means[i]) / Max(config.stddevs[i], 0.0000001)
  }

  /** The six named features of a flow, normalised and weighed by a row of the projection. */
  function Weighed(e: Elementary, config: ModelConfig, m: FlowMetrics, row: seq<real>): real
    requires config.Shaped() && |row| == 6
  {
    row[0] * ZScore(config, m.meanLen, 0) + row[1] * ZScore(config, e.sqrt(m.varLen), 1)
    + row[2] * ZScore(config, m.packetRate, 2) + row[3] * ZScore(config, m.byteRate, 3)
    + row[4] * ZScore(config, m.fwdBwdRatio, 4) + row[5] * ZScore(config, m.synRatio, 5)
  }

  /** The score of any model, from the named fields of the metrics. */
  lemma {:induction false} ScoreFromFields(e: Elementary, config: ModelConfig, m: FlowMetrics, phi: seq<real>)
    requires config.Shaped() && |phi| == |config.weights|
    requires var p := config.projection;
             forall j :: 0 <= j < |phi| ==>
               phi[j] == e.sqrt(2.0 / |phi| as real) * e.cos(Weighed(e, config, m, p.wMatrix[j]) + p.bVector[j])
    ensures Phi(e, config, m) == phi
    ensures var raw := 1.0 - 2.0 * DotUpTo(config.weights, phi, |phi|) + config.weightsNormSq;
            Score(e, config, m) == if raw >= 0.0 then raw else 0.0
  {
    hide DotUpTo, Weighed;
    forall j | 0 <= j < |phi| ensures phi[j] == Phi(e, config, m)[j] {
      WeighedIsDot(e, config, m, config.projection.wMatrix[j]);
    }
    assert phi == Phi(e, config, m);
  }

  lemma {:induction false} WeighedIsDot(e: Elementary, config: ModelConfig, m: FlowMetrics, row: seq<real>)
    requires config.Shaped() && |row| == 6
    ensures var z := Normalized(Features(e, m), config.means, Clamped(config.stddevs));
            DotUpTo(row, z, 6) == Weighed(e, config, m, row)
  {
    hide DotUpTo, Normalized, Clamped;
    var x := Features(e, m);
    var z := Normalized(x, config.means, Clamped(config.stddevs));
    forall i | 0 <= i < 6 ensures z[i] == ZScore(config, x[i], i) {
      NormalizedAt(x, config.means, config.stddevs, i);
    }
    DotOfSix(row, z);
  }

  function FeatureRows(e: Elementary, samples: seq<FlowMetrics>): (xs: seq<seq<real>>)
    ensures |xs| == |samples| && Rows(xs, FEATURES)
    ensures forall k :: 0 <= k < |xs| ==> xs[k] == Features(e, samples[k])
  {
    seq(|samples|, k requires 0 <= k < |samples| => Features(e, samples[k]))
  }

  /** The projections of the training samples: the trainer divides by the deviations as they are. */
  function TrainingRows(e: Elementary, p: Projection, xs: seq<seq<real>>, means: seq<real>, stddevs: seq<real>)
    : (phis: seq<seq<real>>)
    requires |means| == |stddevs| == FEATURES && Rows(xs, FEATURES) && p.Shaped(FEATURES)
    requires forall i :: 0 <= i < |stddevs| ==> stddevs[i] != 0.0
    ensures |phis| == |xs| && Rows(phis, |p.bVector|)
    ensures forall k :: 0 <= k < |xs| ==> phis[k] == Projected(e, p, Normalized(xs[k], means, stddevs))
  {
    seq(|xs|, k requires 0 <= k < |xs| => Projected(e, p, Normalized(xs[k], means, stddevs)))
  }

  function Distances(phis: seq<seq<real>>, w: seq<real>): (ds: seq<real>)
    requires Rows(phis, |w|)
    ensures |ds| == |phis|
    ensures forall k :: 0 <= k < |phis| ==> ds[k] == ExpandedDistance(w, NormSq(w), phis[k])
  {
    seq(|phis|, k requires 0 <= k < |phis| => ExpandedDistance(w, NormSq(w), phis[k]))
  }

  function TrainedModel(e: Elementary, p: Projection, samples: seq<FlowMetrics>): (config: ModelConfig)
    requires |samples| > 0 && p.Shaped(FEATURES)
    ensures config.Shaped()
  {
    var xs := FeatureRows(e, samples);
    var means, stddevs := Means(xs, FEATURES), StdDevs(e, xs, FEATURES);
    var phis := TrainingRows(e, p, xs, means, stddevs);
    var w := Means(phis, |p.bVector|);
    ModelConfig(means, stddevs, p, w, NormSq(w), Threshold(Distances(phis, w)))
  }

  /** None is the error for an empty sample set. */
  method Train(e: Elementary, p: Projection, samples: seq<FlowMetrics>) returns (r: Option<ModelConfig>)
    requires p.Shaped(FEATURES)
    ensures |samples| == 0 ==> r == None
    ensures |samples| > 0 ==> r == Some(TrainedModel(e, p, samples))
  {
    if |samples| == 0 {
      return None;
    }
    var xs: seq<seq<real>> := [];
    for k := 0 to |samples|
      invariant xs == FeatureRows(e, samples)[..k]
    {
      xs := xs + [Features(e, samples[k])];
    }
    assert xs == FeatureRows(e, samples);
    var means := ColumnMeans(xs, FEATURES);
    var stddevs := ColumnDeviations(e, xs, means);
    ClampIsIdempotent(stddevs);
    var phis := ProjectSamples(e, p, xs, means, stddevs);
    var w := ColumnMeans(phis, |p.bVector|);
    var normSq := SumOfSquares(w);
    var distances := DistancesTo(phis, w, normSq);
    r := Some(ModelConfig(means, stddevs, p, w, normSq, Sorted(distances)[ThresholdIndex(|samples|)]));
  }

  method ProjectSamples(e: Elementary, p: Projection, xs: seq<seq<real>>, means: seq<real>, stddevs: seq<real>)
    returns (phis: seq<seq<real>>)
    requires |means| == |stddevs| == FEATURES && Rows(xs, FEATURES) && p.Shaped(FEATURES)
    requires forall i :: 0 <= i < |stddevs| ==> stddevs[i] != 0.0
    ensures phis == TrainingRows(e, p, xs, means, stddevs)
  {
    phis := [];
    for k := 0 to |xs|
      invariant phis == TrainingRows(e, p, xs, means, stddevs)[..k]
    {
      var z := new real[FEATURES](_ => 0.0);
      for i := 0 to FEATURES
        invariant forall l :: 0 <= l < i ==> z[l] == (xs[k][l] - means[l]) / stddevs[l]
      {
        z[i] := (xs[k][i] - means[i]) / stddevs[i];
      }
      assert z[..] == Normalized(xs[k], means, stddevs);
      var phi := ProjectFeatures(e, p, z[..]);
      phis := phis + [phi];
    }
  }

  method SumOfSquares(w: seq<real>) returns (sum: real)
    ensures sum == NormSq(w)
  {
    sum := 0.0;
    for j := 0 to |w|
      invariant sum == NormUpTo(w, j)
    {
      sum := sum + w[j] * w[j];
    }
  }

  method DistancesTo(phis: seq<seq<real>>, w: seq<real>, normSq: real) returns (ds: seq<real>)
    requires Rows(phis, |w|) && normSq == NormSq(w)
    ensures ds == Distances(phis, w)
  {
    ds := [];
    for k := 0 to |phis|
      invariant ds == Distances(phis, w)[..k]
    {
      var wDotPhi := Dot(w, phis[k]);
      ds := ds + [Max(1.0 - 2.0 * wDotPhi + normSq, 0.0)];
    }
  }

  /** With the true norm of the weights, the clamped expanded distance is within 1 of the exact one, and
      off by exactly 1 - ||phi||^2 when the clamp does not act. */
  lemma ExpandedNearExact(e: Elementary, p: Projection, z: seq<real>, w: seq<real>)
    requires e.Valid() && p.Shaped(|z|) && |w| == |p.bVector|
    ensures var phi := Projected(e, p, z);
            var expanded, exact := ExpandedDistance(w, NormSq(w), phi), DistSq(phi, w);
            && -1.0 <= expanded - exact <= 1.0
            && (RawDistance(w, NormSq(w), phi) >= 0.0 ==> expanded - exact == 1.0 - NormSq(phi))
  {
    hide Projected, DotUpTo, DistUpTo, NormUpTo, Elementary.Valid;
    var phi := Projected(e, p, z);
    ProjectionNorm(e, p, z);
    DistanceExpands(phi, w, |phi|);
  }

  /** A one-dimensional projection at the crest of the cosine is off by the full 1. */
  lemma BoundIsTight(e: Elementary, z: seq<real>)
    requires e.Valid() && e.cos(0.0) == 1.0
    ensures var p := Projection([seq(|z|, _ => 0.0)], [0.0]);
            var phi := Projected(e, p, z);
            DistSq(phi, [0.0]) - ExpandedDistance([0.0], NormSq([0.0]), phi) == 1.0
  {
    var p := Projection([seq(|z|, _ => 0.0)], [0.0]);
    var phi := Projected(e, p, z);
    ZeroRow(z, |z|);
    assert phi[0] == Coordinate(e, p, z, 0) == e.Scale(1);
    ScaleSquared(e, 1);
    assert DotUpTo([0.0], phi, 1) == 0.0 * phi[0];
    assert DistUpTo(phi, [0.0], 1) == DistUpTo(phi, [0.0], 0) + Square(phi[0] - 0.0);
  }

  lemma {:induction false} ZeroRow(z: seq<real>, m: nat)
    requires m <= |z|
    ensures DotUpTo(seq(|z|, _ => 0.0), z, m) == 0.0
  {
    if m > 0 {
      ZeroRow(z, m - 1);
    }
  }

  /** A trained model and the exact distance to its weights give the same verdict on any metrics whose
      exact distance is more than 1 away from the threshold. */
  lemma VerdictsAgreeAwayFromThreshold(e: Elementary, p: Projection, samples: seq<FlowMetrics>, m: FlowMetrics)
    requires e.Valid() && |samples| > 0 && p.Shaped(FEATURES)
    ensures var config := TrainedModel(e, p, samples);
            var exact := DistSq(Phi(e, config, m), config.weights);
            && (exact > config.threshold + 1.0 ==> Score(e, config, m) > config.threshold)
            && (exact < config.threshold - 1.0 ==> Score(e, config, m) <= config.threshold)
            && -1.0 <= Score(e, config, m) - exact <= 1.0
  {
    hide ExpandedDistance, Projected, Normalized, Clamped, Features, Elementary.Valid;
    var config := TrainedModel(e, p, samples);
    ExpandedNearExact(e, p, Normalized(Features(e, m), config.means, Clamped(config.stddevs)), config.weights);
  }

  function Flagged(e: Elementary, config: ModelConfig, samples: seq<FlowMetrics>): nat
    requires config.Shaped()
  {
    if samples == [] then 0
    else (if Score(e, config, samples[0]) > config.threshold then 1 else 0) + Flagged(e, config, samples[1..])
  }

  /** The scores of the samples, in order. */
  function Scores(e: Elementary, config: ModelConfig, samples: seq<FlowMetrics>): (ds: seq<real>)
    requires config.Shaped()
    ensures |ds| == |samples|
  {
    seq(|samples|, k requires 0 <= k < |samples| => Score(e, config, samples[k]))
  }

  lemma {:induction false} FlaggedCounts(e: Elementary, config: ModelConfig, samples: seq<FlowMetrics>)
    requires config.Shaped()
    ensures Flagged(e, config, samples) == CountAbove(Scores(e, config, samples), config.threshold)
  {
    if samples != [] {
      FlaggedCounts(e, config, samples[1..]);
      assert Scores(e, config, samples)[1..] == Scores(e, config, samples[1..]);
    }
  }

  /** What the classifier makes of the training samples before and after projecting them. */
  function TrainingInputs(e: Elementary, config: ModelConfig, samples: seq<FlowMetrics>): (zs: seq<seq<real>>)
    requires config.Shaped()
    ensures |zs| == |samples| && Rows(zs, FEATURES)
  {
    seq(|samples|, k requires 0 <= k < |samples| =>
      Normalized(Features(e, samples[k]), config.means, Clamped(config.stddevs)))
  }

  function TrainingPhis(e: Elementary, config: ModelConfig, samples: seq<FlowMetrics>): (phis: seq<seq<real>>)
    requires config.Shaped()
    ensures |phis| == |samples| && Rows(phis, |config.weights|)
  {
    seq(|samples|, k requires 0 <= k < |samples| => Phi(e, config, samples[k]))
  }

  lemma TrainedStatistics(e: Elementary, p: Projection, samples: seq<FlowMetrics>)
    requires |samples| > 0 && p.Shaped(FEATURES)
    ensures var config, xs := TrainedModel(e, p, samples), FeatureRows(e, samples);
            && config.projection == p
            && config.means == Means(xs, FEATURES)
            && Clamped(config.stddevs) == config.stddevs == StdDevs(e, xs, FEATURES)
            && config.weights == Means(TrainingPhis(e, config, samples), |config.weights|)
            && config.weightsNormSq == NormSq(config.weights)
  {
    hide Projected, Normalized, Threshold, Means, Features;
    var config, xs := TrainedModel(e, p, samples), FeatureRows(e, samples);
    ClampIsIdempotent(config.stddevs);
    assert TrainingRows(e, p, xs, config.means, config.stddevs) == TrainingPhis(e, config, samples);
  }

  /** Under its model a training set is standardised. */
  lemma TrainingSetIsStandardised(e: Elementary, p: Projection, samples: seq<FlowMetrics>, i: nat)
    requires e.Valid() && |samples| > 0 && p.Shaped(FEATURES) && i < FEATURES
    ensures var z := Column(TrainingInputs(e, TrainedModel(e, p, samples), samples), i);
            var root := e.sqrt(VarianceOf(Column(FeatureRows(e, samples), i)));
            && Sum(z) == 0.0
            && SumSq(z) * Square(Max(root, 0.0000001)) == |samples| as real * Square(root)
            && SumSq(z) <= |samples| as real
            && (SumSq(z) == |samples| as real <==> root >= 0.0000001)
  {
    hide Sum, SumSq, VarianceOf, MeanOf, Features, Elementary.Valid, TrainedModel, Means, StdDevs, Clamped;
    var config := TrainedModel(e, p, samples);
    TrainedStatistics(e, p, samples);
    ZScoresAreStandard(e, Column(FeatureRows(e, samples), i), Column(TrainingInputs(e, config, samples), i));
  }

  /** The trained weights are the one point with the least total squared distance to the projections that the
      classifier forms for the samples, and the stored norm is theirs. */
  lemma TrainedWeightsAreBest(e: Elementary, p: Projection, samples: seq<FlowMetrics>)
    requires |samples| > 0 && p.Shaped(FEATURES)
    ensures var config := TrainedModel(e, p, samples);
            var phis, w := TrainingPhis(e, config, samples), config.weights;
            && config.projection == p && config.weightsNormSq == NormSq(w)
            && forall y {:trigger TotalDistance(phis, y)} :: |y| == |w| ==>
                 && TotalDistance(phis, w) <= TotalDistance(phis, y)
                 && (TotalDistance(phis, w) == TotalDistance(phis, y) <==> y == w)
  {
    hide TrainedModel, TotalDistance, NormSq, DistSq, Projected, Normalized, Features, Clamped, TrainingPhis;
    var config := TrainedModel(e, p, samples);
    var phis, w := TrainingPhis(e, config, samples), config.weights;
    TrainedStatistics(e, p, samples);
    forall y | |y| == |w|
      ensures TotalDistance(phis, w) <= TotalDistance(phis, y)
      ensures TotalDistance(phis, w) == TotalDistance(phis, y) <==> y == w
    {
      CentroidMinimises(phis, y);
    }
  }

  /** The distances behind the threshold are the scores the classifier gives the training samples. */
  lemma TrainerAgreesWithClassifier(e: Elementary, p: Projection, samples: seq<FlowMetrics>)
    requires |samples| > 0 && p.Shaped(FEATURES)
    ensures var config := TrainedModel(e, p, samples);
            config.threshold == Threshold(Scores(e, config, samples))
  {
    hide Projected, Normalized, ExpandedDistance, Threshold;
    var config := TrainedModel(e, p, samples);
    var xs := FeatureRows(e, samples);
    ClampIsIdempotent(config.stddevs);
    var phis := TrainingRows(e, p, xs, config.means, config.stddevs);
    assert Distances(phis, config.weights) == Scores(e, config, samples);
  }

  /** Over its own training set this model too flags strictly fewer than 5% of the samples. */
  lemma FewTrainingSamplesFlagged(e: Elementary, p: Projection, samples: seq<FlowMetrics>)
    requires |samples| > 0 && p.Shaped(FEATURES)
    ensures 20 * Flagged(e, TrainedModel(e, p, samples), samples) < |samples|
  {
    hide TrainedModel;
    var config := TrainedModel(e, p, samples);
    TrainerAgreesWithClassifier(e, p, samples);
    FlaggedCounts(e, config, samples);
    FewExceedThreshold(Scores(e, config, samples));
  }
}
