/** The arithmetic behind the three heat-map layers of the user interface:
    every entry becomes one point at its postal code's centroid, weighted by
    min-max normalisation of its value and clamped into [0, 1]. Drawing the
    map is not modelled; the centroid look-up is a parameter whose `Err`
    stands for an exception. */
module Presentation {
  import opened Wrappers
  import opened Dicts
  import opened Numeric
  import opened Geography
  import opened Analytics

  /** The fallback of `_get_postal_code_centroid`: the centre of Berlin. */
  const BerlinCenter: (real, real) := (52.5200, 13.4050)

  /** A result of the geography service's centroid look-up; `Err` is an
      exception it raised. */
  type CentroidLookup = string -> Result<Option<Coordinate>, string>

  /** `_get_postal_code_centroid`: the centroid's latitude and longitude,
      or the centre of Berlin when there is none or the look-up raised. */
  function CentroidOrFallback(r: Result<Option<Coordinate>, string>): (p: (real, real))
    ensures r.Ok? && r.value.Some? ==> p == (r.value.value.latitude, r.value.value.longitude)
    ensures r.Err? || r.value.None? ==> p == BerlinCenter
  {
    match r
    case Ok(Some(c)) => (c.latitude, c.longitude)
    case _ => BerlinCenter
  }

  /** A part of a positive whole, divided by the whole, lies in [0, 1]. */
  lemma {:induction false} UnitRatio(a: real, d: real)
    requires d > 0.0 && 0.0 <= a <= d
    ensures 0.0 <= a / d <= 1.0 && (a / d) * d == a
  {
    var q := a / d;
    assert q * d == a;
  }

  /** The weight of a value between the smallest and the largest one: the
      min-max ratio when they differ, 0.5 when they are equal, clamped into
      [0, 1]. */
  function Weight(v: real, lo: real, hi: real): (w: real)
    ensures 0.0 <= w <= 1.0
    ensures hi <= lo ==> w == 0.5
  {
    if hi > lo then Clamp01((v - lo) / (hi - lo)) else Clamp01(0.5)
  }

  /** A value between differing bounds weighs its distance from the
      smallest value as a fraction of the bounds' distance: no clamping
      takes place. */
  lemma {:induction false} WeightInRange(v: real, lo: real, hi: real)
    requires hi > lo && lo <= v <= hi
    ensures Weight(v, lo, hi) * (hi - lo) == v - lo
  {
    UnitRatio(v - lo, hi - lo);
  }

  /** The smallest value gets weight 0 and the largest weight 1. */
  lemma {:induction false} WeightEndpoints(lo: real, hi: real)
    requires hi > lo
    ensures Weight(lo, lo, hi) == 0.0 && Weight(hi, lo, hi) == 1.0
  {
    assert (hi - lo) / (hi - lo) == 1.0;
  }

  /** Dividing by a positive number keeps the order. */
  lemma {:induction false} DivMonotone(a: real, b: real, d: real)
    requires d > 0.0 && a <= b
    ensures a / d <= b / d
  {
    var q1, q2 := a / d, b / d;
    assert (q2 - q1) * d == b - a;
    assert (q2 - q1) * d >= 0.0;
  }

  /** The weight preserves the order of the values. */
  lemma {:induction false} WeightMonotone(v1: real, v2: real, lo: real, hi: real)
    requires v1 <= v2
    ensures Weight(v1, lo, hi) <= Weight(v2, lo, hi)
  {
    if hi > lo {
      DivMonotone(v1 - lo, v2 - lo, hi - lo);
    }
  }

  /** `max(0.0, min(1.0, weight))` of the ratio or of 0.5 is the weight. */
  lemma {:induction false} WeightAsComputed(v: real, lo: real, hi: real)
    ensures Weight(v, lo, hi) == Max(0.0, Min(1.0, if hi > lo then (v - lo) / (hi - lo) else 0.5))
  {
  }

  /** A point of a heat-map layer: `[lat, lon, weight]`. */
  datatype HeatPoint = HeatPoint(latitude: real, longitude: real, weight: real)

  /** The values of a layer's entries, in order. */
  function LayerValues(entries: seq<(string, real)>): (r: seq<real>)
    ensures |r| == |entries| && forall i :: 0 <= i < |entries| ==> r[i] == entries[i].1
  {
    Values(entries)
  }

  /** The point one entry gives, for the bounds of its layer. */
  function PointFor(entry: (string, real), lo: real, hi: real, lookup: CentroidLookup): HeatPoint
  {
    var (lat, lon) := CentroidOrFallback(lookup(entry.0));
    HeatPoint(lat, lon, Weight(entry.1, lo, hi))
  }

  /** The loop shared by the three `_add_*_heatmap` helpers, for bounds
      already taken: one point per entry, in order. */
  method WeighEntries(entries: seq<(string, real)>, minValue: real, maxValue: real, lookup: CentroidLookup)
    returns (heat: seq<HeatPoint>)
    ensures |heat| == |entries|
    ensures forall i :: 0 <= i < |entries| ==> heat[i] == PointFor(entries[i], minValue, maxValue, lookup)
  {
    heat := [];
    var k := 0;
    while k < |entries|
      invariant 0 <= k <= |entries|
      invariant |heat| == k
      invariant forall i :: 0 <= i < k ==> heat[i] == PointFor(entries[i], minValue, maxValue, lookup)
    {
      var postalCode, value := entries[k].0, entries[k].1;
      var centroid := CentroidOrFallback(lookup(postalCode));
      var weight;
      if maxValue > minValue {
        weight := (value - minValue) / (maxValue - minValue);
      } else {
        weight := 0.5;
      }
      weight := Max(0.0, Min(1.0, weight));
      WeightAsComputed(value, minValue, maxValue);
      heat := heat + [HeatPoint(centroid.0, centroid.1, weight)];
      k := k + 1;
    }
  }

  /** The heat points of a layer: none for no entries, otherwise one point
      per entry, in order, weighted between the smallest and the largest
      value of the layer. */
  method HeatPoints(entries: seq<(string, real)>, lookup: CentroidLookup) returns (heat: seq<HeatPoint>)
    ensures |heat| == |entries|
    ensures entries != [] ==> forall i :: 0 <= i < |entries| ==>
      heat[i] == PointFor(entries[i], SeqMin(LayerValues(entries)), SeqMax(LayerValues(entries)), lookup)
  {
    heat := [];
    if entries != [] {
      var values := LayerValues(entries);
      var maxValue := SeqMax(values);
      var minValue := SeqMin(values);
      heat := WeighEntries(entries, minValue, maxValue, lookup);
    }
  }

  /** In a layer whose values are not all equal, an entry holding the
      smallest value weighs 0 and one holding the largest weighs 1. */
  lemma {:induction false} LayerWeightsSpan(entries: seq<(string, real)>, lookup: CentroidLookup, i: int, j: int)
    requires 0 <= i < |entries| && 0 <= j < |entries|
    requires entries[i].1 != entries[j].1
    ensures var lo, hi := SeqMin(LayerValues(entries)), SeqMax(LayerValues(entries));
      && (entries[i].1 == lo ==> PointFor(entries[i], lo, hi, lookup).weight == 0.0)
      && (entries[i].1 == hi ==> PointFor(entries[i], lo, hi, lookup).weight == 1.0)
  {
    var values := LayerValues(entries);
    var lo, hi := SeqMin(values), SeqMax(values);
    assert values[i] == entries[i].1 && values[j] == entries[j].1;
    assert hi > lo;
    WeightEndpoints(lo, hi);
  }

  /** A layer whose values are all equal draws every point at weight 0.5. */
  lemma {:induction false} FlatLayerWeighsHalf(entries: seq<(string, real)>, lookup: CentroidLookup, i: int)
    requires 0 <= i < |entries|
    requires forall k :: 0 <= k < |entries| ==> entries[k].1 == entries[0].1
    ensures PointFor(entries[i], SeqMin(LayerValues(entries)), SeqMax(LayerValues(entries)), lookup).weight == 0.5
  {
    var values := LayerValues(entries);
    assert SeqMin(values) in values && SeqMax(values) in values;
  }

  /** A layer of integer values as the reals Python's true division works
      on. */
  function AsReals(d: Dict<string, int>): (r: seq<(string, real)>)
    ensures |r| == |d| && forall i :: 0 <= i < |d| ==> r[i] == (d[i].0, d[i].1 as real)
  {
    seq(|d|, i requires 0 <= i < |d| => (d[i].0, d[i].1 as real))
  }

  /** `_add_charging_stations_heatmap`: station counts per postal code. */
  method AddChargingStationsHeatmap(stationsData: Dict<string, int>, lookup: CentroidLookup) returns (heat: seq<HeatPoint>)
    ensures |heat| == |stationsData|
    ensures stationsData != [] ==> forall i :: 0 <= i < |stationsData| ==>
      heat[i] == PointFor(AsReals(stationsData)[i], SeqMin(LayerValues(AsReals(stationsData))), SeqMax(LayerValues(AsReals(stationsData))), lookup)
  {
    heat := HeatPoints(AsReals(stationsData), lookup);
  }

  /** The postal codes and values of the demand heat-map data. */
  function DemandEntries(heatmapData: seq<HeatmapData>): (r: seq<(string, real)>)
    ensures |r| == |heatmapData| && forall i :: 0 <= i < |heatmapData| ==> r[i] == (heatmapData[i].postalCode, heatmapData[i].value)
  {
    seq(|heatmapData|, i requires 0 <= i < |heatmapData| => (heatmapData[i].postalCode, heatmapData[i].value))
  }

  /** `_add_demand_heatmap_layer`: the values of the demand heat-map data;
      their own colour intensities are not used. */
  method AddDemandHeatmapLayer(heatmapData: seq<HeatmapData>, lookup: CentroidLookup) returns (heat: seq<HeatPoint>)
    ensures |heat| == |heatmapData|
    ensures heatmapData != [] ==> forall i :: 0 <= i < |heatmapData| ==>
      heat[i] == PointFor(DemandEntries(heatmapData)[i], SeqMin(LayerValues(DemandEntries(heatmapData))), SeqMax(LayerValues(DemandEntries(heatmapData))), lookup)
  {
    heat := HeatPoints(DemandEntries(heatmapData), lookup);
  }

  /** `_add_residents_heatmap`: residents per postal code. */
  method AddResidentsHeatmap(residentsData: Dict<string, int>, lookup: CentroidLookup) returns (heat: seq<HeatPoint>)
    ensures |heat| == |residentsData|
    ensures residentsData != [] ==> forall i :: 0 <= i < |residentsData| ==>
      heat[i] == PointFor(AsReals(residentsData)[i], SeqMin(LayerValues(AsReals(residentsData))), SeqMax(LayerValues(AsReals(residentsData))), lookup)
  {
    heat := HeatPoints(AsReals(residentsData), lookup);
  }
}
