/**
 * `point_confidence`: the distance from an observation to every centroid,
 * turned into similarities `1 / (1 + d)` and normalised to sum to 1.
 * The distance function (L2 in the source) is a parameter.
 */
module Confidence {

  /** A distance between two points of feature space, such as `L2Dist::distance`. */
  type Distance = (seq<real>, seq<real>) -> real

  /** Distances are never negative, as for any metric. */
  ghost predicate NonNegativeDistance(dist: Distance) {
    forall a: seq<real>, b: seq<real> :: dist(a, b) >= 0.0
  }

  /** `sims.get(cluster).cloned().unwrap_or(0.0)`. */
  function ShareOf(sims: seq<real>, cluster: nat): real {
    if cluster < |sims| then sims[cluster] else 0.0
  }

  function Sum(s: seq<real>): real {
    if |s| == 0 then 0.0 else Sum(s[..|s| - 1]) + s[|s| - 1]
  }

  predicate NonNegative(ds: seq<real>) {
    forall i :: 0 <= i < |ds| ==> ds[i] >= 0.0
  }

  /** One distance per centroid, in centroid row order. */
  function Distances(centroids: seq<seq<real>>, observation: seq<real>, dist: Distance): (ds: seq<real>)
    ensures |ds| == |centroids|
  {
    seq(|centroids|, i requires 0 <= i < |centroids| => dist(observation, centroids[i]))
  }

  /** `1 / (1 + d)`: in (0, 1] for a non-negative distance, and 1 exactly at distance 0. */
  function Similarity(d: real): (s: real)
    requires d >= 0.0
    ensures 0.0 < s <= 1.0
    ensures s == 1.0 <==> d == 0.0
  {
    1.0 / (1.0 + d)
  }

  function RawSimilarities(ds: seq<real>): (raw: seq<real>)
    requires NonNegative(ds)
    ensures |raw| == |ds|
    ensures forall i :: 0 <= i < |ds| ==> 0.0 < raw[i] <= 1.0
  {
    seq(|ds|, i requires 0 <= i < |ds| => Similarity(ds[i]))
  }

  function Scale(s: seq<real>, c: real): (r: seq<real>)
    requires c != 0.0
    ensures |r| == |s|
  {
    seq(|s|, i requires 0 <= i < |s| => s[i] / c)
  }

  /** The similarities, divided by their sum when that sum is positive. */
  function Similarities(ds: seq<real>): (sims: seq<real>)
    requires NonNegative(ds)
    ensures |sims| == |ds|
  {
    var raw := RawSimilarities(ds);
    var sum := Sum(raw);
    if sum > 0.0 then Scale(raw, sum) else raw
  }

  /** `point_confidence`: `distances` and the similarities, normalised in place. */
  method PointConfidence(centroids: seq<seq<real>>, observation: seq<real>, dist: Distance)
    returns (distances: seq<real>, sims: seq<real>)
    requires forall i :: 0 <= i < |centroids| ==> dist(observation, centroids[i]) >= 0.0
    ensures |distances| == |centroids|
    ensures forall i :: 0 <= i < |centroids| ==> distances[i] == dist(observation, centroids[i])
    ensures sims == Similarities(distances)
  {
    var n := |centroids|;
    var ds := new real[n];
    for i := 0 to n
      invariant forall k :: 0 <= k < i ==> ds[k] == dist(observation, centroids[k])
    {
      ds[i] := dist(observation, centroids[i]);
    }
    distances := ds[..];
    var a := new real[n];
    for i := 0 to n
      invariant forall k :: 0 <= k < i ==> a[k] == Similarity(distances[k])
    {
      a[i] := 1.0 / (1.0 + distances[i]);
    }
    assert a[..] == RawSimilarities(distances);
    var sum := ArraySum(a);
    if sum > 0.0 {
      DivideAll(a, sum);
    }
    sims := a[..];
  }

  /** `sims.sum()`, added up from the front. */
  method ArraySum(a: array<real>) returns (sum: real)
    ensures sum == Sum(a[..])
  {
    sum := 0.0;
    for i := 0 to a.Length
      invariant sum == Sum(a[..i])
    {
      assert a[..i + 1][..i] == a[..i];
      sum := sum + a[i];
    }
    assert a[..a.Length] == a[..];
  }

  /** `sims /= sum`: every element divided in place. */
  method DivideAll(a: array<real>, sum: real)
    requires sum != 0.0
    modifies a
    ensures a[..] == Scale(old(a[..]), sum)
  {
    ghost var raw := a[..];
    for i := 0 to a.Length
      invariant forall k :: 0 <= k < i ==> a[k] == raw[k] / sum
      invariant forall k :: i <= k < a.Length ==> a[k] == raw[k]
    {
      a[i] := a[i] / sum;
    }
  }

  lemma {:induction false} SumOfPositives(s: seq<real>)
    requires forall i :: 0 <= i < |s| ==> s[i] > 0.0
    ensures |s| > 0 ==> Sum(s) > 0.0
    ensures forall i :: 0 <= i < |s| ==> s[i] <= Sum(s)
  {
    if |s| > 0 {
      SumOfPositives(s[..|s| - 1]);
    }
  }

  lemma {:induction false} SumScale(s: seq<real>, c: real)
    requires c != 0.0
    ensures Sum(Scale(s, c)) == Sum(s) / c
  {
    if |s| > 0 {
      SumScale(s[..|s| - 1], c);
      assert Scale(s, c)[..|s| - 1] == Scale(s[..|s| - 1], c);
    }
  }

  /** A smaller distance gives a larger similarity. */
  lemma SimilarityDecreasing(d1: real, d2: real)
    requires 0.0 <= d1 < d2
    ensures Similarity(d1) > Similarity(d2)
  {
    assert Similarity(d1) * (1.0 + d1) == 1.0;
    assert Similarity(d2) * (1.0 + d2) == 1.0;
  }

  /** With at least one centroid the sum is positive, the similarities are normalised, and they sum to 1. */
  lemma SimilaritiesSumToOne(ds: seq<real>)
    requires NonNegative(ds) && |ds| > 0
    ensures Sum(RawSimilarities(ds)) > 0.0
    ensures Sum(Similarities(ds)) == 1.0
  {
    var raw := RawSimilarities(ds);
    SumOfPositives(raw);
    SumScale(raw, Sum(raw));
  }

  /** With no centroid nothing is divided: the result is the (empty) raw list. */
  lemma NoCentroidsLeftUnnormalised(ds: seq<real>)
    requires NonNegative(ds) && Sum(RawSimilarities(ds)) <= 0.0
    ensures ds == [] && Similarities(ds) == []
  {
    SumOfPositives(RawSimilarities(ds));
  }

  lemma DivideWithin(x: real, c: real)
    requires 0.0 < x <= c
    ensures 0.0 < x / c <= 1.0
  {
    assert x / c * c == x;
  }

  lemma DivideKeepsOrder(x: real, y: real, c: real)
    requires y < x && c > 0.0
    ensures y / c < x / c
  {
    assert x / c * c == x && y / c * c == y;
  }

  /** Every normalised similarity is in (0, 1]. */
  lemma SimilaritiesInUnit(ds: seq<real>, i: nat)
    requires NonNegative(ds) && i < |ds|
    ensures 0.0 < Similarities(ds)[i] <= 1.0
  {
    var raw := RawSimilarities(ds);
    SumOfPositives(raw);
    var sum := Sum(raw);
    assert Similarities(ds)[i] == raw[i] / sum;
    DivideWithin(raw[i], sum);
  }

  /** Normalising keeps the order: the nearer centroid has the larger share. */
  lemma SimilaritiesKeepOrder(ds: seq<real>, i: nat, j: nat)
    requires NonNegative(ds) && i < |ds| && j < |ds| && ds[i] < ds[j]
    ensures Similarities(ds)[i] > Similarities(ds)[j]
  {
    var raw := RawSimilarities(ds);
    SumOfPositives(raw);
    SimilarityDecreasing(ds[i], ds[j]);
    var sum := Sum(raw);
    assert Similarities(ds)[i] == raw[i] / sum && Similarities(ds)[j] == raw[j] / sum;
    DivideKeepsOrder(raw[i], raw[j], sum);
  }

  lemma HalfOfDouble(x: real)
    requires x > 0.0
    ensures x / (x + x) == 0.5
  {
  }

  /** Two centroids at the same distance share the weight equally. */
  lemma EqualPairSplitsEvenly(ds: seq<real>)
    requires NonNegative(ds) && |ds| == 2 && ds[0] == ds[1]
    ensures Similarities(ds) == [0.5, 0.5]
  {
    var raw := RawSimilarities(ds);
    assert raw[..1][..0] == [];
    assert Sum(raw[..1]) == raw[0];
    assert Sum(raw) == Sum(raw[..1]) + raw[1];
    assert raw[0] == raw[1];
    HalfOfDouble(raw[0]);
    var sims := Similarities(ds);
    assert sims[0] == raw[0] / (raw[0] + raw[0]);
    assert sims[1] == raw[1] / (raw[0] + raw[0]);
  }

  /** An observation equidistant from both of two centroids scores 0.5 against each. */
  lemma EquidistantPairSplitsEvenly(observation: seq<real>, centroids: seq<seq<real>>, dist: Distance)
    requires NonNegativeDistance(dist) && |centroids| == 2
    requires dist(observation, centroids[0]) == dist(observation, centroids[1])
    ensures Similarities(Distances(centroids, observation, dist)) == [0.5, 0.5]
  {
    EqualPairSplitsEvenly(Distances(centroids, observation, dist));
  }
}
