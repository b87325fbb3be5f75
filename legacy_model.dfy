/**
 * The feature table of the root crate (src/model.rs). It reads a metrics
 * record of eleven counts that the crate's own extractor does not declare,
 * so it has a record type of its own here. Its `point_confidence` is the
 * same function as the newer crate's and is modelled once, in `Confidence`.
 */
module LegacyModel {

  datatype ModelMetrics = ModelMetrics(
    emojiRate: real,
    irregularQuotations: real,
    irregularDashes: real,
    irregularEllipsis: real,
    irregularMarkdown: real,
    notJustCount: real,
    devlogCount: real,
    htmlEscapeCount: real,
    buzzwordCount: real,
    hashtags: real,
    labels: real)

  const FeatureCount: nat := 11

  /**
   * One row: emoji rate, quotes x5, dashes x5, ellipses, Markdown,
   * "not just" x5, devlog phrases, HTML escapes x5, buzzwords x10,
   * hashtags, labels.
   */
  function FeatureRow(m: ModelMetrics): (row: seq<real>)
    ensures |row| == FeatureCount
  {
    [m.emojiRate, m.irregularQuotations * 5.0, m.irregularDashes * 5.0, m.irregularEllipsis,
     m.irregularMarkdown, m.notJustCount * 5.0, m.devlogCount, m.htmlEscapeCount * 5.0,
     m.buzzwordCount * 10.0, m.hashtags, m.labels]
  }

  /** The feature matrix as a value: row `i` comes from record `i`. */
  function FeatureMatrix(data: seq<ModelMetrics>): (rows: seq<seq<real>>)
    ensures |rows| == |data|
    ensures forall i :: 0 <= i < |data| ==> |rows[i]| == FeatureCount
  {
    seq(|data|, i requires 0 <= i < |data| => FeatureRow(data[i]))
  }

  /** Every weight is non-zero, so distinct records never share a row. */
  lemma FeatureRowInjective(a: ModelMetrics, b: ModelMetrics)
    requires FeatureRow(a) == FeatureRow(b)
    ensures a == b
  {
    var ra, rb := FeatureRow(a), FeatureRow(b);
    assert ra[1] == rb[1] && ra[2] == rb[2] && ra[5] == rb[5] && ra[7] == rb[7] && ra[8] == rb[8];
  }

  /** `features_from_metrics`: a zeroed n x 11 array filled row by row. */
  method FeaturesFromMetrics(data: seq<ModelMetrics>) returns (features: array2<real>)
    ensures features.Length0 == |data| && features.Length1 == FeatureCount
    ensures forall i, j :: 0 <= i < |data| && 0 <= j < FeatureCount ==>
              features[i, j] == FeatureMatrix(data)[i][j]
  {
    var nFeatures := FeatureCount;
    var nSamples := |data|;
    features := new real[nSamples, nFeatures]((_, _) => 0.0);
    for i := 0 to nSamples
      invariant forall i', j :: 0 <= i' < i && 0 <= j < FeatureCount ==>
                  features[i', j] == FeatureRow(data[i'])[j]
    {
      FillRow(features, i, data[i]);
    }
  }

  /** The body of the loop: row `i` gets the weighted columns of `sample`, the other rows stay. */
  method FillRow(features: array2<real>, i: nat, sample: ModelMetrics)
    requires i < features.Length0 && features.Length1 == FeatureCount
    modifies features
    ensures forall j :: 0 <= j < FeatureCount ==> features[i, j] == FeatureRow(sample)[j]
    ensures forall i', j :: 0 <= i' < features.Length0 && i' != i && 0 <= j < FeatureCount ==>
              features[i', j] == old(features[i', j])
  {
    features[i, 0] := sample.emojiRate;
    features[i, 1] := sample.irregularQuotations * 5.0;
    features[i, 2] := sample.irregularDashes * 5.0;
    features[i, 3] := sample.irregularEllipsis;
    features[i, 4] := sample.irregularMarkdown;
    features[i, 5] := sample.notJustCount * 5.0;
    features[i, 6] := sample.devlogCount;
    features[i, 7] := sample.htmlEscapeCount * 5.0;
    features[i, 8] := sample.buzzwordCount * 10.0;
    features[i, 9] := sample.hashtags;
    features[i, 10] := sample.labels;
  }
}
