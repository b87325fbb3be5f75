/**
 * `features_from_metrics` of the `sonai-metrics` crate: one weighted row of
 * eleven columns per metrics record. The column order and the weights are
 * what the trained centroids expect.
 */
module SonaiFeatures {
  import opened SonaiMetrics

  const FeatureCount: nat := 11

  /**
   * One row: emoji rate, buzzword rate, dashes x20, quotes x5, labels,
   * ellipses, HTML escapes x5, "not just" x5, devlog phrases, Markdown,
   * hashtags.
   */
  function FeatureRow(m: TextMetrics): (row: seq<real>)
    ensures |row| == FeatureCount
  {
    [m.emojiRate, m.buzzwordRate, m.irregularDashes * 20.0, m.irregularQuotations * 5.0,
     m.labels, m.irregularEllipsis, m.htmlEscapeCount * 5.0, m.notJustCount * 5.0,
     m.devlogCount, m.irregularMarkdown, m.hashtags]
  }

  /** The feature matrix as a value: row `i` comes from record `i`. */
  function FeatureMatrix(data: seq<TextMetrics>): (rows: seq<seq<real>>)
    ensures |rows| == |data|
    ensures forall i :: 0 <= i < |data| ==> |rows[i]| == FeatureCount
  {
    seq(|data|, i requires 0 <= i < |data| => FeatureRow(data[i]))
  }

  /** Every weight is non-zero, so distinct records never share a row. */
  lemma FeatureRowInjective(a: TextMetrics, b: TextMetrics)
    requires FeatureRow(a) == FeatureRow(b)
    ensures a == b
  {
    var ra, rb := FeatureRow(a), FeatureRow(b);
    assert ra[2] == rb[2] && ra[3] == rb[3] && ra[6] == rb[6] && ra[7] == rb[7];
  }

  /** `features_from_metrics`: a zeroed n x 11 array filled row by row. */
  method FeaturesFromMetrics(data: seq<TextMetrics>) returns (features: array2<real>)
    ensures features.Length0 == |data| && features.Length1 == FeatureCount
    ensures forall i, j :: 0 <= i < |data| && 0 <= j < FeatureCount ==>
              features[i, j] == FeatureMatrix(data)[i][j]
  {
    var nFeatures := FeatureCount;
    var nSamples := |data|;
    features := new real[nSamples, nFeatures]((_, _) => 0.0);
    for i := 0 to nSamples
      invariant forall i', j :: 0 <= i' < i && 0 <= j < FeatureCount ==>
                  features[i', j] == FeatureRow(data[i'])[j]
    {
      FillRow(features, i, data[i]);
    }
  }

  /** The body of the loop: row `i` gets the weighted columns of `sample`, the other rows stay. */
  method FillRow(features: array2<real>, i: nat, sample: TextMetrics)
    requires i < features.Length0 && features.Length1 == FeatureCount
    modifies features
    ensures forall j :: 0 <= j < FeatureCount ==> features[i, j] == FeatureRow(sample)[j]
    ensures forall i', j :: 0 <= i' < features.Length0 && i' != i && 0 <= j < FeatureCount ==>
              features[i', j] == old(features[i', j])
  {
    features[i, 0] := sample.emojiRate;
    features[i, 1] := sample.buzzwordRate;
    features[i, 2] := sample.irregularDashes * 20.0;
    features[i, 3] := sample.irregularQuotations * 5.0;
    features[i, 4] := sample.labels;
    features[i, 5] := sample.irregularEllipsis;
    features[i, 6] := sample.htmlEscapeCount * 5.0;
    features[i, 7] := sample.notJustCount * 5.0;
    features[i, 8] := sample.devlogCount;
    features[i, 9] := sample.irregularMarkdown;
    features[i, 10] := sample.hashtags;
  }
}
