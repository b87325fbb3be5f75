/**
 * `predict` of the `inference-lib` crate: the same composition as the
 * newer predictor, over the root crate's feature table, but with the roles
 * swapped: the AI cluster's share is reported as the chance that the text
 * is human-written.
 *
 * The extractor it calls belongs to a crate that is not part of this
 * model; its result for `devlog` is the parameter `calculate`.
 */
module InferenceLib {
  import opened LegacyModel
  import opened Confidence

  datatype Prediction = Prediction(chanceAi: real, chanceHuman: real, metrics: ModelMetrics)

  /** The centroid similarities of a devlog's feature row. */
  function Scores(devlog: string, calculate: string -> ModelMetrics,
                  centroids: seq<seq<real>>, dist: Distance): (sims: seq<real>)
    requires NonNegativeDistance(dist)
    ensures |sims| == |centroids|
  {
    var row := FeatureMatrix([calculate(devlog)])[0];
    Similarities(Distances(centroids, row, dist))
  }

  function Predict(devlog: string, calculate: string -> ModelMetrics,
                   centroids: seq<seq<real>>, dist: Distance, aiCluster: nat): (p: Prediction)
    requires NonNegativeDistance(dist)
    ensures p.metrics == calculate(devlog)
    ensures p.chanceAi == 100.0 - p.chanceHuman
    ensures aiCluster < |centroids| ==>
              p.chanceHuman == 100.0 * Scores(devlog, calculate, centroids, dist)[aiCluster]
    ensures aiCluster >= |centroids| ==> p.chanceHuman == 0.0 && p.chanceAi == 100.0
    ensures 0.0 <= p.chanceAi <= 100.0 && 0.0 <= p.chanceHuman <= 100.0
  {
    var sample := calculate(devlog);
    var features := FeatureMatrix([sample])[0];
    var sims := Similarities(Distances(centroids, features, dist));
    var chanceHuman := ShareOf(sims, aiCluster) * 100.0;
    var chanceAi := 100.0 - chanceHuman;
    assert 0.0 <= ShareOf(sims, aiCluster) <= 1.0 by {
      if aiCluster < |sims| {
        SimilaritiesInUnit(Distances(centroids, features, dist), aiCluster);
      }
    }
    Prediction(chanceAi := chanceAi, chanceHuman := chanceHuman, metrics := sample)
  }

  /** Two centroids equally far from the devlog's row: a coin toss here too. */
  lemma EqualDistancesSplitEvenly(devlog: string, calculate: string -> ModelMetrics,
                                  centroids: seq<seq<real>>, dist: Distance, aiCluster: nat)
    requires NonNegativeDistance(dist) && |centroids| == 2 && aiCluster < 2
    requires dist(FeatureRow(calculate(devlog)), centroids[0])
             == dist(FeatureRow(calculate(devlog)), centroids[1])
    ensures Predict(devlog, calculate, centroids, dist, aiCluster).chanceAi == 50.0
    ensures Predict(devlog, calculate, centroids, dist, aiCluster).chanceHuman == 50.0
  {
    var m := calculate(devlog);
    assert FeatureMatrix([m])[0] == FeatureRow(m);
    EquidistantPairSplitsEvenly(FeatureRow(m), centroids, dist);
  }

  /**
   * The swap made visible: a devlog nearer the AI centroid than another
   * centroid gets a human chance above that other centroid's share.
   */
  lemma NearerAiClusterRaisesHumanChance(devlog: string, calculate: string -> ModelMetrics,
                                         centroids: seq<seq<real>>, dist: Distance,
                                         aiCluster: nat, other: nat)
    requires NonNegativeDistance(dist) && aiCluster < |centroids| && other < |centroids|
    requires dist(FeatureRow(calculate(devlog)), centroids[aiCluster])
             < dist(FeatureRow(calculate(devlog)), centroids[other])
    ensures Predict(devlog, calculate, centroids, dist, aiCluster).chanceHuman
            > 100.0 * Scores(devlog, calculate, centroids, dist)[other]
  {
    var row := FeatureMatrix([calculate(devlog)])[0];
    SimilaritiesKeepOrder(Distances(centroids, row, dist), aiCluster, other);
  }
}
