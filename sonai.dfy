/**
 * `_predict` of the `sonai` crate: extract the metrics of a devlog, take
 * row 0 of their feature matrix, score it against the centroids and read
 * the AI cluster's share as the chance that the text is AI-written.
 *
 * The trained model is a parameter: its centroid rows, its distance
 * function and the index of the AI cluster (one byte in the source).
 * The Markdown events are those the parser yields for `devlog`, and the
 * extractor is the `METRICS` static: any factory `Valid` accepts, such as
 * `SonaiMetrics.New()`.
 */
module Sonai {
  import opened SonaiMetrics
  import opened SonaiFeatures
  import opened Confidence
  import Markdown
  import Foreign

  datatype Prediction = Prediction(chanceAi: real, chanceHuman: real, metrics: TextMetrics)

  /** The centroid similarities of one metrics record's feature row. */
  function ScoresOf(m: TextMetrics, centroids: seq<seq<real>>, dist: Distance): (sims: seq<real>)
    requires NonNegativeDistance(dist)
    ensures |sims| == |centroids|
    ensures forall i :: 0 <= i < |sims| ==> 0.0 < sims[i] <= 1.0
  {
    var row := FeatureMatrix([m])[0];
    var sims := Similarities(Distances(centroids, row, dist));
    forall i | 0 <= i < |sims|
      ensures 0.0 < sims[i] <= 1.0
    {
      SimilaritiesInUnit(Distances(centroids, row, dist), i);
    }
    sims
  }

  /** The chances read off one metrics record: the AI cluster's share, or 0 when there is no such cluster. */
  function Classify(m: TextMetrics, centroids: seq<seq<real>>, dist: Distance, aiCluster: nat): (p: Prediction)
    requires NonNegativeDistance(dist)
    ensures p.metrics == m
    ensures p.chanceAi + p.chanceHuman == 100.0
    ensures aiCluster < |centroids| ==> p.chanceAi == 100.0 * ScoresOf(m, centroids, dist)[aiCluster]
    ensures aiCluster >= |centroids| ==> p.chanceAi == 0.0 && p.chanceHuman == 100.0
    ensures 0.0 <= p.chanceAi <= 100.0 && 0.0 <= p.chanceHuman <= 100.0
  {
    var sims := ScoresOf(m, centroids, dist);
    var chanceAi := ShareOf(sims, aiCluster) * 100.0;
    Prediction(chanceAi := chanceAi, chanceHuman := 100.0 - chanceAi, metrics := m)
  }

  /** Equal distances to two centroids give the scores `[0.5, 0.5]`. */
  lemma EvenScoresOf(m: TextMetrics, centroids: seq<seq<real>>, dist: Distance)
    requires NonNegativeDistance(dist) && |centroids| == 2
    requires dist(FeatureRow(m), centroids[0]) == dist(FeatureRow(m), centroids[1])
    ensures ScoresOf(m, centroids, dist) == [0.5, 0.5]
  {
    assert FeatureMatrix([m])[0] == FeatureRow(m);
    EquidistantPairSplitsEvenly(FeatureRow(m), centroids, dist);
  }

  /** Scores `[0.5, 0.5]` give both chances 50. */
  lemma EvenClassify(m: TextMetrics, centroids: seq<seq<real>>, dist: Distance, aiCluster: nat)
    requires NonNegativeDistance(dist) && |centroids| == 2 && aiCluster < 2
    requires ScoresOf(m, centroids, dist) == [0.5, 0.5]
    ensures Classify(m, centroids, dist, aiCluster).chanceAi == 50.0
    ensures Classify(m, centroids, dist, aiCluster).chanceHuman == 50.0
  {
    assert ScoresOf(m, centroids, dist)[aiCluster] == 0.5;
  }

  /** The centroid similarities of a devlog's feature row. */
  function Scores(factory: TextMetricFactory, devlog: string, events: seq<Markdown.Event>,
                  libs: Foreign.Libs,
                  centroids: seq<seq<real>>, dist: Distance): (sims: seq<real>)
    requires Valid(factory) && libs.SegmentsText() && NonNegativeDistance(dist)
    ensures |sims| == |centroids|
    ensures forall i :: 0 <= i < |sims| ==> 0.0 < sims[i] <= 1.0
  {
    ScoresOf(Metrics(factory, devlog, events, libs), centroids, dist)
  }

  /** `_predict`: the AI chance is the AI cluster's share, or 0 when there is no such cluster. */
  function Predict(factory: TextMetricFactory, devlog: string, events: seq<Markdown.Event>,
                   libs: Foreign.Libs,
                   centroids: seq<seq<real>>, dist: Distance, aiCluster: nat): (p: Prediction)
    requires Valid(factory) && libs.SegmentsText() && NonNegativeDistance(dist)
    ensures p.metrics == Metrics(factory, devlog, events, libs)
    ensures p.chanceAi + p.chanceHuman == 100.0
    ensures aiCluster < |centroids| ==>
              p.chanceAi == 100.0 * Scores(factory, devlog, events, libs, centroids, dist)[aiCluster]
    ensures aiCluster >= |centroids| ==> p.chanceAi == 0.0 && p.chanceHuman == 100.0
    ensures 0.0 <= p.chanceAi <= 100.0 && 0.0 <= p.chanceHuman <= 100.0
  {
    Classify(Metrics(factory, devlog, events, libs), centroids, dist, aiCluster)
  }

  lemma EvenScores(factory: TextMetricFactory, devlog: string, events: seq<Markdown.Event>,
                   libs: Foreign.Libs,
                   centroids: seq<seq<real>>, dist: Distance)
    requires Valid(factory) && libs.SegmentsText() && NonNegativeDistance(dist) && |centroids| == 2
    requires dist(FeatureRow(Metrics(factory, devlog, events, libs)), centroids[0])
             == dist(FeatureRow(Metrics(factory, devlog, events, libs)), centroids[1])
    ensures Scores(factory, devlog, events, libs, centroids, dist) == [0.5, 0.5]
  {
    EvenScoresOf(Metrics(factory, devlog, events, libs), centroids, dist);
  }

  lemma EvenPrediction(factory: TextMetricFactory, devlog: string, events: seq<Markdown.Event>,
                       libs: Foreign.Libs,
                       centroids: seq<seq<real>>, dist: Distance, aiCluster: nat)
    requires Valid(factory) && libs.SegmentsText() && NonNegativeDistance(dist) && |centroids| == 2 && aiCluster < 2
    requires Scores(factory, devlog, events, libs, centroids, dist) == [0.5, 0.5]
    ensures Predict(factory, devlog, events, libs, centroids, dist, aiCluster).chanceAi == 50.0
    ensures Predict(factory, devlog, events, libs, centroids, dist, aiCluster).chanceHuman == 50.0
  {
    EvenClassify(Metrics(factory, devlog, events, libs), centroids, dist, aiCluster);
  }

  /** Two centroids equally far from the devlog's row: a coin toss. */
  lemma EqualDistancesSplitEvenly(factory: TextMetricFactory, devlog: string, events: seq<Markdown.Event>,
                                  libs: Foreign.Libs,
                                  centroids: seq<seq<real>>, dist: Distance, aiCluster: nat)
    requires Valid(factory) && libs.SegmentsText() && NonNegativeDistance(dist) && |centroids| == 2 && aiCluster < 2
    requires dist(FeatureRow(Metrics(factory, devlog, events, libs)), centroids[0])
             == dist(FeatureRow(Metrics(factory, devlog, events, libs)), centroids[1])
    ensures Predict(factory, devlog, events, libs, centroids, dist, aiCluster).chanceAi == 50.0
    ensures Predict(factory, devlog, events, libs, centroids, dist, aiCluster).chanceHuman == 50.0
  {
    EvenScores(factory, devlog, events, libs, centroids, dist);
    EvenPrediction(factory, devlog, events, libs, centroids, dist, aiCluster);
  }

  /** The nearer of two clusters gets the larger score. */
  lemma NearerScoresHigher(m: TextMetrics, centroids: seq<seq<real>>, dist: Distance, near: nat, far: nat)
    requires NonNegativeDistance(dist) && near < |centroids| && far < |centroids|
    requires dist(FeatureRow(m), centroids[near]) < dist(FeatureRow(m), centroids[far])
    ensures ScoresOf(m, centroids, dist)[near] > ScoresOf(m, centroids, dist)[far]
  {
    var row := FeatureMatrix([m])[0];
    SimilaritiesKeepOrder(Distances(centroids, row, dist), near, far);
  }

  /** The nearer of two clusters gets the larger chance. */
  lemma NearerClusterWins(factory: TextMetricFactory, devlog: string, events: seq<Markdown.Event>,
                          libs: Foreign.Libs,
                          centroids: seq<seq<real>>, dist: Distance, aiCluster: nat, other: nat)
    requires Valid(factory) && libs.SegmentsText() && NonNegativeDistance(dist) && aiCluster < |centroids| && other < |centroids|
    requires dist(FeatureRow(Metrics(factory, devlog, events, libs)), centroids[aiCluster])
             < dist(FeatureRow(Metrics(factory, devlog, events, libs)), centroids[other])
    ensures Predict(factory, devlog, events, libs, centroids, dist, aiCluster).chanceAi
            > 100.0 * Scores(factory, devlog, events, libs, centroids, dist)[other]
  {
    NearerScoresHigher(Metrics(factory, devlog, events, libs), centroids, dist, aiCluster, other);
  }
}
