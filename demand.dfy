/** The demand rule in its three spellings, and what is built around each:
    the demand layer of the map (residents merged with station counts, the
    demand column, the capped colour scale), the demand-calculated event
    handler, the `DemandResult` record, and the summary of the demand script
    (residents per station with `+inf` for postal codes without stations,
    totals, and two top-20 lists). */
module Demand {
  import opened Wrappers
  import opened Tables
  import opened ColumnDetection
  import opened StationPipeline
  import Numeric
  import Text

  // ------------------------------------------------------- the demand rule

  /** Residents per station, or the residents themselves where there is no
      station (the rule of the map layer and of the event handler). The
      quotient of two integers is finite, so replacing infinities and NaN
      by 0 afterwards changes nothing. */
  function DemandOf(einwohner: int, number: int): real
  {
    if number > 0 then einwohner as real / number as real else einwohner as real
  }

  /** The demand times the number of stations (at least one) gives back the
      residents, and for non-negative inputs the demand lies between 0 and
      the residents. */
  lemma {:induction false} DemandOfSpec(einwohner: int, number: int)
    ensures var n := if number > 0 then number else 1;
      DemandOf(einwohner, number) * n as real == einwohner as real
    ensures einwohner >= 0 && number >= 0 ==> 0.0 <= DemandOf(einwohner, number) <= einwohner as real
  {
    if number > 0 {
      var d := DemandOf(einwohner, number);
      assert d * number as real == einwohner as real;
      if einwohner >= 0 {
        assert d >= 0.0;
        assert d * number as real >= d * 1.0;
      }
    }
  }

  /** The four scenarios of the demand tests. */
  lemma DemandTestVectors()
    ensures DemandOf(500, 0) == 500.0
    ensures DemandOf(500, 1) == 500.0
    ensures DemandOf(500, 5) == 100.0
    ensures DemandOf(0, 10) == 0.0
  {
  }

  // --------------------------------------------------- the map's demand layer

  /** The labels of the table `preprop_resid` returns. */
  const PreprocessedLabels: seq<string> := ["PLZ", "Einwohner", "Breitengrad", "Längengrad", "geometry"]

  /** The residents column the layer looks for: the first label that starts
      with or contains `einw` once lower-cased. On the table `preprop_resid`
      returns it is `Einwohner`, so the branch that sets residents to 0 is
      never taken there. */
  lemma ResidentsColumnOfPreprocessed()
    ensures FirstIndex(PreprocessedLabels, DemandResidents) == Some(1)
  {
    assert Text.Lower("PLZ") == "plz";
    assert Text.Lower("Einwohner") == "einwohner";
    assert "einw" <= "einwohner";
    assert !Text.Contains("plz", "einw");
  }

  /** A row of the merged frame: postal code, geometry, residents, stations. */
  datatype DemandRow = DemandRow(plz: int, geometry: Geometry, einwohner: int, number: int)

  function CountsKeyed(counts: seq<PlzStations>): seq<(int, int)>
  {
    seq(|counts|, i requires 0 <= i < |counts| => (counts[i].plz, counts[i].number))
  }

  /** `residents.merge(counts, on='PLZ', how='left')` with a missing station
      count read as 0. */
  function FullFrame(residents: seq<(int, ResidentRow, Geometry)>, counts: seq<PlzStations>): seq<DemandRow>
  {
    var left := seq(|residents|, i requires 0 <= i < |residents| =>
      (residents[i].0, (residents[i].2, residents[i].1.einwohner)));
    var joined := LeftJoin(left, CountsKeyed(counts));
    seq(|joined|, i requires 0 <= i < |joined| =>
      DemandRow(joined[i].0, joined[i].1.0, joined[i].1.1, joined[i].2.GetOr(0)))
  }

  /** The demand column. */
  function Demands(full: seq<DemandRow>): (d: seq<real>)
    ensures |d| == |full|
  {
    seq(|full|, i requires 0 <= i < |full| => DemandOf(full[i].einwohner, full[i].number))
  }

  /** The counts of `count_plz_occurrences` have one row per postal code. */
  lemma {:induction false} CountsKeyedUnique<L>(stations: seq<(int, L, Geometry)>)
    ensures UniqueKeys(CountsKeyed(CountPlzOccurrences(stations)))
  {
    CountPlzOccurrencesSpec(stations);
    var cs := CountPlzOccurrences(stations);
    var keyed := CountsKeyed(cs);
    forall i, j | 0 <= i < j < |keyed| ensures keyed[i].0 != keyed[j].0 {
      assert keyed[i].0 == cs[i].plz && keyed[j].0 == cs[j].plz;
    }
  }

  lemma {:induction false} StationsAtAbsent<L>(stations: seq<(int, L, Geometry)>, p: int)
    requires forall j :: 0 <= j < |stations| ==> stations[j].0 != p
    ensures StationsAt(stations, p) == 0
  {
    if stations != [] {
      StationsAtAbsent(stations[..|stations| - 1], p);
    }
  }

  lemma {:induction false} LookupRightFound<K, R>(right: seq<(K, R)>, k: K)
    requires LookupRight(right, k).Some?
    ensures (k, LookupRight(right, k).value) in right
  {
    if right[0].0 != k {
      LookupRightFound(right[1..], k);
    }
  }

  lemma {:induction false} LookupRightMissing<K, R>(right: seq<(K, R)>, k: K)
    requires LookupRight(right, k).None?
    ensures forall i :: 0 <= i < |right| ==> right[i].0 != k
  {
    if right != [] {
      LookupRightMissing(right[1..], k);
      assert forall i :: 1 <= i < |right| ==> right[i] == right[1..][i - 1];
    }
  }

  /** The stations the counts record for a postal code: the number of
      stations there, and 0 when there is none. */
  lemma {:induction false} CountOfPlz<L>(stations: seq<(int, L, Geometry)>, p: int)
    ensures LookupRight(CountsKeyed(CountPlzOccurrences(stations)), p).GetOr(0) == StationsAt(stations, p)
  {
    var cs := CountPlzOccurrences(stations);
    var keyed := CountsKeyed(cs);
    CountPlzOccurrencesSpec(stations);
    var groupKeys := set i | 0 <= i < |cs| :: cs[i].plz;
    var stationKeys := set j | 0 <= j < |stations| :: stations[j].0;
    assert groupKeys == stationKeys;
    match LookupRight(keyed, p)
    case Some(n) =>
      LookupRightFound(keyed, p);
      var i :| 0 <= i < |keyed| && keyed[i] == (p, n);
      assert cs[i].plz == p;
    case None =>
      LookupRightMissing(keyed, p);
      forall j | 0 <= j < |stations| ensures stations[j].0 != p {
        assert stations[j].0 in stationKeys;
        var i :| 0 <= i < |cs| && cs[i].plz == stations[j].0;
        assert keyed[i].0 == cs[i].plz;
      }
      StationsAtAbsent(stations, p);
  }

  /** The merged frame keeps every residents row in order, with its postal
      code, geometry and residents, and with the number of stations at its
      postal code (0 where there is none). */
  lemma {:induction false} FullFrameSpec<L>(residents: seq<(int, ResidentRow, Geometry)>, stations: seq<(int, L, Geometry)>)
    ensures var full := FullFrame(residents, CountPlzOccurrences(stations));
      && |full| == |residents|
      && forall i :: 0 <= i < |full| ==>
        full[i] == DemandRow(residents[i].0, residents[i].2, residents[i].1.einwohner,
                             StationsAt(stations, residents[i].0))
  {
    var counts := CountPlzOccurrences(stations);
    var left := seq(|residents|, i requires 0 <= i < |residents| =>
      (residents[i].0, (residents[i].2, residents[i].1.einwohner)));
    CountsKeyedUnique(stations);
    LeftJoinUnique(left, CountsKeyed(counts));
    var full := FullFrame(residents, counts);
    forall i | 0 <= i < |full|
      ensures full[i] == DemandRow(residents[i].0, residents[i].2, residents[i].1.einwohner,
                                   StationsAt(stations, residents[i].0))
    {
      CountOfPlz(stations, residents[i].0);
    }
  }

  // ------------------------------------------------ the colour-scale maximum

  predicate NonZero(d: real) { d != 0.0 }

  /** `demand.max() or 1`: a zero maximum is replaced by 1. */
  function OrOne(m: real): real { if m == 0.0 then 1.0 else m }

  /** What `int()` raises on a NaN. */
  const NanToInteger := "cannot convert float NaN to integer"

  /** The colour-scale maximum as the layer computes it, with `p95` the 95th
      percentile of the non-zero demands. An empty frame has a NaN maximum,
      and a frame whose demands are all 0 has a NaN percentile; `int()` of
      either raises. */
  function VmaxAsWritten(demands: seq<real>, p95: real): Result<int, string>
  {
    var nonzero := Filter(demands, NonZero);
    if |demands| == 0 || |nonzero| == 0 then Err(NanToInteger)
    else
      var v := Numeric.Trunc(p95);
      if v <= 0 then Ok(Numeric.Trunc(OrOne(Numeric.SeqMax(demands)))) else Ok(v)
  }

  /** The maximum the layer evidently intends: the `max or 1` fallback,
      which gives 1, wherever no demand is non-zero. */
  function Vmax(demands: seq<real>, p95: real): int
  {
    match VmaxAsWritten(demands, p95)
    case Ok(v) => v
    case Err(_) => 1
  }

  /** `p95` lies between the least and the greatest of `xs`. */
  predicate PercentileOf(xs: seq<real>, p95: real) {
    |xs| > 0 ==> (exists i :: 0 <= i < |xs| && xs[i] <= p95) && (exists j :: 0 <= j < |xs| && p95 <= xs[j])
  }

  lemma {:induction false} FilterNone<T(!new)>(s: seq<T>, p: T -> bool)
    requires forall i :: 0 <= i < |s| ==> !p(s[i])
    ensures Filter(s, p) == []
  {
    if s != [] {
      FilterNone(s[1..], p);
    }
  }

  /** As written, the maximum cannot be computed when no demand is
      non-zero: for an empty frame and for a frame with no station-less,
      populated postal code alike. */
  lemma {:induction false} VmaxFailsWithoutDemand(demands: seq<real>, p95: real)
    requires forall i :: 0 <= i < |demands| ==> demands[i] == 0.0
    ensures VmaxAsWritten(demands, p95).Err?
  {
    FilterNone(demands, NonZero);
  }

  /** One such frame: a single postal code with no residents. */
  lemma VmaxOfZeroDemand()
    ensures VmaxAsWritten([0.0], 0.0).Err?
    ensures Vmax([0.0], 0.0) == 1
  {
    VmaxFailsWithoutDemand([0.0], 0.0);
  }

  /** Where some demand is non-zero, a percentile of non-negative demands
      is non-negative. */
  lemma {:induction false} PercentileNonNegative(demands: seq<real>, p95: real)
    requires forall i :: 0 <= i < |demands| ==> demands[i] >= 0.0
    requires |Filter(demands, NonZero)| > 0
    requires PercentileOf(Filter(demands, NonZero), p95)
    ensures p95 >= 0.0
  {
    var nonzero := Filter(demands, NonZero);
    var j :| 0 <= j < |nonzero| && nonzero[j] <= p95;
    assert nonzero[j] in nonzero;
  }

  lemma {:induction false} MaxOfNonNegative(demands: seq<real>)
    requires |demands| > 0
    requires forall i :: 0 <= i < |demands| ==> demands[i] >= 0.0
    ensures Numeric.SeqMax(demands) >= 0.0
  {
    assert demands[0] <= Numeric.SeqMax(demands);
  }

  lemma {:induction false} VmaxNonNegative(demands: seq<real>, p95: real)
    requires forall i :: 0 <= i < |demands| ==> demands[i] >= 0.0
    requires PercentileOf(Filter(demands, NonZero), p95)
    ensures Vmax(demands, p95) >= 0
  {
    if |demands| > 0 && |Filter(demands, NonZero)| > 0 {
      PercentileNonNegative(demands, p95);
      MaxOfNonNegative(demands);
      VmaxOfNonNegatives(demands, p95);
    } else {
      VmaxAsWrittenErr(demands, p95);
    }
  }

  /** With no demand, or no non-zero one, the maximum is not computed. */
  lemma {:induction false} VmaxAsWrittenErr(demands: seq<real>, p95: real)
    requires |demands| == 0 || |Filter(demands, NonZero)| == 0
    ensures VmaxAsWritten(demands, p95) == Err(NanToInteger)
  {
  }

  /** A computed maximum from a non-negative percentile and maximum is not
      negative. */
  lemma {:induction false} VmaxOfNonNegatives(demands: seq<real>, p95: real)
    requires |demands| > 0 && |Filter(demands, NonZero)| > 0
    requires p95 >= 0.0 && Numeric.SeqMax(demands) >= 0.0
    ensures Vmax(demands, p95) >= 0
  {
    var v := Numeric.Trunc(p95);
    var w := Numeric.Trunc(OrOne(Numeric.SeqMax(demands)));
    assert v >= 0 && w >= 0;
    assert VmaxAsWritten(demands, p95) == Ok(if v <= 0 then w else v);
  }

  lemma {:induction false} VmaxAtLeastOne(demands: seq<real>, p95: real, i: int)
    requires forall i :: 0 <= i < |demands| ==> demands[i] >= 0.0
    requires PercentileOf(Filter(demands, NonZero), p95)
    requires 0 <= i < |demands| && demands[i] >= 1.0
    ensures Vmax(demands, p95) >= 1
  {
    assert demands[i] in Filter(demands, NonZero);
    PercentileNonNegative(demands, p95);
    assert demands[i] <= Numeric.SeqMax(demands);
    VmaxOfLargeMaximum(demands, p95);
  }

  /** A computed maximum from a non-negative percentile and a maximum of at
      least 1 is at least 1. */
  lemma {:induction false} VmaxOfLargeMaximum(demands: seq<real>, p95: real)
    requires |demands| > 0 && |Filter(demands, NonZero)| > 0
    requires p95 >= 0.0 && Numeric.SeqMax(demands) >= 1.0
    ensures Vmax(demands, p95) >= 1
  {
    var v := Numeric.Trunc(p95);
    var w := Numeric.Trunc(OrOne(Numeric.SeqMax(demands)));
    assert w >= 1;
    assert VmaxAsWritten(demands, p95) == Ok(if v <= 0 then w else v);
  }

  /** The intended maximum agrees with the written one wherever that one
      succeeds; for non-negative demands it is never negative, it is 1 when
      every demand is 0, and it is at least 1 as soon as some demand is. */
  lemma {:induction false} VmaxSpec(demands: seq<real>, p95: real)
    requires forall i :: 0 <= i < |demands| ==> demands[i] >= 0.0
    requires PercentileOf(Filter(demands, NonZero), p95)
    ensures VmaxAsWritten(demands, p95).Ok? ==> Vmax(demands, p95) == VmaxAsWritten(demands, p95).value
    ensures Vmax(demands, p95) >= 0
    ensures (forall i :: 0 <= i < |demands| ==> demands[i] == 0.0) ==> Vmax(demands, p95) == 1
    ensures (exists i :: 0 <= i < |demands| && demands[i] >= 1.0) ==> Vmax(demands, p95) >= 1
  {
    VmaxNonNegative(demands, p95);
    if forall i :: 0 <= i < |demands| ==> demands[i] == 0.0 {
      VmaxFailsWithoutDemand(demands, p95);
    }
    if exists i :: 0 <= i < |demands| && demands[i] >= 1.0 {
      var i :| 0 <= i < |demands| && demands[i] >= 1.0;
      VmaxAtLeastOne(demands, p95, i);
    }
  }

  /** The value a postal code is coloured by: its demand, capped at the
      scale maximum. */
  function DisplayValue(demand: real, vmax: int): real
  {
    Numeric.Min(demand, vmax as real)
  }

  /** The drawing loop: one capped value per row of the merged frame, in
      order. */
  method DisplayValues(demands: seq<real>, vmax: int) returns (shown: seq<real>)
    ensures |shown| == |demands|
    ensures forall i :: 0 <= i < |demands| ==> shown[i] == DisplayValue(demands[i], vmax)
    ensures forall i :: 0 <= i < |demands| ==> shown[i] <= vmax as real
    ensures forall i :: 0 <= i < |demands| && demands[i] <= vmax as real ==> shown[i] == demands[i]
    ensures forall i :: 0 <= i < |demands| && demands[i] >= 0.0 && vmax >= 0 ==> shown[i] >= 0.0
  {
    shown := [];
    var k := 0;
    while k < |demands|
      invariant 0 <= k <= |demands|
      invariant |shown| == k
      invariant forall i :: 0 <= i < k ==> shown[i] == DisplayValue(demands[i], vmax)
    {
      var val := demands[k];
      shown := shown + [if val <= vmax as real then val else vmax as real];
      k := k + 1;
    }
  }

  /** The demand layer end to end: merge the preprocessed residents with the
      station counts, compute the demand column and the scale maximum, and
      cap each demand at that maximum for colouring. The maximum is the
      corrected `Vmax`, which is 1 where the written one raises. */
  method DemandLayer<L>(residents: seq<(int, ResidentRow, Geometry)>, stations: seq<(int, L, Geometry)>, p95: real)
    returns (full: seq<DemandRow>, vmax: int, shown: seq<real>)
    ensures |full| == |residents| && |shown| == |residents|
    ensures forall i :: 0 <= i < |full| ==>
      full[i] == DemandRow(residents[i].0, residents[i].2, residents[i].1.einwohner, StationsAt(stations, residents[i].0))
    ensures vmax == Vmax(Demands(full), p95)
    ensures forall i :: 0 <= i < |full| ==>
      shown[i] == DisplayValue(DemandOf(residents[i].1.einwohner, StationsAt(stations, residents[i].0)), vmax)
  {
    FullFrameSpec(residents, stations);
    full := FullFrame(residents, CountPlzOccurrences(stations));
    var demands := Demands(full);
    vmax := Vmax(demands, p95);
    shown := DisplayValues(demands, vmax);
  }

  // -------------------------------------------- the demand-calculated event

  /** The station counts handed to the event: column labels besides the
      postal code, and per row the postal code and the cells under those
      labels. */
  datatype CountsFrame<K> = CountsFrame(labels: seq<string>, rows: seq<(K, seq<int>)>)

  predicate WellFormed<K>(f: CountsFrame<K>) {
    forall i :: 0 <= i < |f.rows| ==> |f.rows[i].1| == |f.labels|
  }

  function IndexOf(labels: seq<string>, name: string): (r: Option<nat>)
    ensures r.Some? <==> name in labels
    ensures r.Some? ==> r.value < |labels| && labels[r.value] == name
  {
    if labels == [] then None
    else if labels[0] == name then Some(0)
    else match IndexOf(labels[1..], name)
      case None => None
      case Some(j) => Some(j + 1)
  }

  /** The station-count column after renaming `count` to `Number` when
      `Number` is absent; with neither, selecting `Number` fails. */
  function NumberColumn(labels: seq<string>): (r: Option<nat>)
    ensures r.None? <==> "Number" !in labels && "count" !in labels
    ensures r.Some? ==> r.value < |labels|
    ensures "Number" in labels ==> r.Some? && labels[r.value] == "Number"
    ensures "Number" !in labels && "count" in labels ==> r.Some? && labels[r.value] == "count"
  {
    if "Number" in labels then IndexOf(labels, "Number") else IndexOf(labels, "count")
  }

  /** A row of the event's output; the station column is called `count` again. */
  datatype EventRow<K> = EventRow(plz: K, einwohner: int, count: int, demand: real)

  /** `on_demand_calculated`: `None` stands for the missing-column error. */
  function OnDemandCalculated<K(==)>(stations: CountsFrame<K>, residents: seq<(K, int)>): Option<seq<EventRow<K>>>
    requires WellFormed(stations)
  {
    match NumberColumn(stations.labels)
    case None => None
    case Some(c) =>
      var counts := seq(|stations.rows|, i requires 0 <= i < |stations.rows| =>
        (stations.rows[i].0, stations.rows[i].1[c]));
      var joined := LeftJoin(residents, counts);
      Some(seq(|joined|, i requires 0 <= i < |joined| =>
        var n := joined[i].2.GetOr(0);
        EventRow(joined[i].0, joined[i].1, n, DemandOf(joined[i].1, n))))
  }

  /** The counts the event reads from a frame, once the column is known. */
  function EventCounts<K>(stations: CountsFrame<K>, c: nat): seq<(K, int)>
    requires WellFormed(stations) && c < |stations.labels|
  {
    seq(|stations.rows|, i requires 0 <= i < |stations.rows| => (stations.rows[i].0, stations.rows[i].1[c]))
  }

  /** With one counts row per postal code, the event keeps every residents
      row in order and postal code unchanged, carries the station count (0
      where there is none) and the demand of the residents over it. */
  lemma {:induction false} OnDemandCalculatedSpec<K>(stations: CountsFrame<K>, residents: seq<(K, int)>)
    requires WellFormed(stations)
    requires NumberColumn(stations.labels).Some?
    requires UniqueKeys(EventCounts(stations, NumberColumn(stations.labels).value))
    ensures var out := OnDemandCalculated(stations, residents);
      var counts := EventCounts(stations, NumberColumn(stations.labels).value);
      && out.Some?
      && |out.value| == |residents|
      && forall i :: 0 <= i < |residents| ==>
        && out.value[i].plz == residents[i].0
        && out.value[i].einwohner == residents[i].1
        && out.value[i].count == LookupRight(counts, residents[i].0).GetOr(0)
        && out.value[i].demand == DemandOf(residents[i].1, out.value[i].count)
  {
    var c := NumberColumn(stations.labels).value;
    LeftJoinUnique(residents, EventCounts(stations, c));
  }

  /** The event and the map layer compute the same demand: fed the counts of
      `count_plz_occurrences` under `Number`, the event's demand for each
      preprocessed residents row is the layer's. */
  lemma {:induction false} EventAgreesWithLayer<L>(residents: seq<(int, ResidentRow, Geometry)>, stations: seq<(int, L, Geometry)>)
    ensures var counts := CountPlzOccurrences(stations);
      var frame := CountsFrame(["Number"], seq(|counts|, i requires 0 <= i < |counts| => (counts[i].plz, [counts[i].number])));
      var people := seq(|residents|, i requires 0 <= i < |residents| => (residents[i].0, residents[i].1.einwohner));
      var out := OnDemandCalculated(frame, people);
      && out.Some?
      && |out.value| == |residents|
      && Demands(FullFrame(residents, counts)) == seq(|out.value|, i requires 0 <= i < |out.value| => out.value[i].demand)
  {
    var counts := CountPlzOccurrences(stations);
    var frame := CountsFrame(["Number"], seq(|counts|, i requires 0 <= i < |counts| => (counts[i].plz, [counts[i].number])));
    var people := seq(|residents|, i requires 0 <= i < |residents| => (residents[i].0, residents[i].1.einwohner));
    assert NumberColumn(frame.labels) == Some(0);
    assert EventCounts(frame, 0) == CountsKeyed(counts);
    CountsKeyedUnique(stations);
    OnDemandCalculatedSpec(frame, people);
    FullFrameSpec(residents, stations);
    var out := OnDemandCalculated(frame, people);
    var full := FullFrame(residents, counts);
    forall i | 0 <= i < |residents|
      ensures Demands(full)[i] == out.value[i].demand
    {
      CountOfPlz(stations, residents[i].0);
    }
  }

  lemma {:induction false} SingleRowEvent(n: int, people: int)
    ensures OnDemandCalculated(CountsFrame(["count"], [("12345", [n])]), [("12345", people)])
      == Some([EventRow("12345", people, n, DemandOf(people, n))])
  {
    var frame := CountsFrame(["count"], [("12345", [n])]);
    assert NumberColumn(frame.labels) == Some(0);
    assert EventCounts(frame, 0) == [("12345", n)];
    assert Matches([("12345", n)], "12345") == [n];
    assert LeftJoin([("12345", people)], [("12345", n)]) == [("12345", people, Some(n))];
    var out := OnDemandCalculated(frame, [("12345", people)]);
    assert |out.value| == 1;
    assert out.value[0] == EventRow("12345", people, n, DemandOf(people, n));
    assert out.value == [EventRow("12345", people, n, DemandOf(people, n))];
  }

  /** The event's tests: one postal code `12345` with `count` stations. */
  lemma OnDemandCalculatedTestVectors()
    ensures OnDemandCalculated(CountsFrame(["count"], [("12345", [0])]), [("12345", 500)])
      == Some([EventRow("12345", 500, 0, 500.0)])
    ensures OnDemandCalculated(CountsFrame(["count"], [("12345", [1])]), [("12345", 500)])
      == Some([EventRow("12345", 500, 1, 500.0)])
    ensures OnDemandCalculated(CountsFrame(["count"], [("12345", [5])]), [("12345", 500)])
      == Some([EventRow("12345", 500, 5, 100.0)])
    ensures OnDemandCalculated(CountsFrame(["count"], [("12345", [10])]), [("12345", 0)])
      == Some([EventRow("12345", 0, 10, 0.0)])
  {
    SingleRowEvent(0, 500);
    SingleRowEvent(1, 500);
    SingleRowEvent(5, 500);
    SingleRowEvent(10, 0);
  }

  // --------------------------------------------------------- DemandResult

  /** A stored demand record; the geometry it may hold is not modelled. */
  datatype DemandResult = DemandResult(plz: string, demand: real, einwohner: int, count: int)

  /** A record built from a postal code and a demand only. */
  function NewDemandResult(plz: string, demand: real): DemandResult
  {
    DemandResult(plz, demand, 0, 0)
  }

  /** `einwohner / (count + 1)`; `None` stands for the division by zero at
      `count == -1`. */
  function DemandScore(d: DemandResult): (r: Option<real>)
    ensures r.None? <==> d.count == -1
    ensures r.Some? ==> r.value * (d.count + 1) as real == d.einwohner as real
  {
    if d.count + 1 == 0 then None else Some(d.einwohner as real / (d.count + 1) as real)
  }

  /** For a non-negative count the score exists, and for non-negative
      residents it lies between 0 and the residents; the defaults score 0;
      the stored `demand` never enters the score. */
  lemma {:induction false} DemandScoreSpec(d: DemandResult, other: real)
    ensures d.count >= 0 ==> DemandScore(d).Some?
    ensures d.count >= 0 && d.einwohner >= 0 ==>
      0.0 <= DemandScore(d).value <= d.einwohner as real
    ensures DemandScore(NewDemandResult(d.plz, d.demand)) == Some(0.0)
    ensures DemandScore(d.(demand := other)) == DemandScore(d)
  {
    if d.count >= 0 && d.einwohner >= 0 {
      var s := DemandScore(d).value;
      var n := (d.count + 1) as real;
      assert s * n == d.einwohner as real;
      assert s >= 0.0;
      assert s * n >= s * 1.0;
    }
  }

  // ------------------------------------------------------ the demand script

  /** Residents per station in the demand script: `+inf` without stations. */
  datatype Ratio = Finite(r: real) | Infinite

  function PerStation(einwohner: int, stations: int): Ratio
  {
    if stations > 0 then Finite(einwohner as real / stations as real) else Infinite
  }

  /** A row of the merged table of the demand script. */
  datatype Merged = Merged(plz: Option<int>, einwohner: int, numStations: int, ratio: Ratio)

  /** The counts keyed by an optional postal code, as the merge sees them. */
  function SomeKeyed(counts: seq<PlzStations>): seq<(Option<int>, int)>
  {
    seq(|counts|, i requires 0 <= i < |counts| => (Some(counts[i].plz), counts[i].number))
  }

  /** `res.merge(counts, on='plz', how='left')` with a missing count read as
      0, and the residents-per-station column. A missing postal code matches
      no counts row. */
  function MergeCounts(res: seq<(Option<int>, int)>, counts: seq<PlzStations>): seq<Merged>
  {
    var keyed := SomeKeyed(counts);
    var joined := LeftJoin(res, keyed);
    seq(|joined|, i requires 0 <= i < |joined| =>
      var n := joined[i].2.GetOr(0);
      Merged(joined[i].0, joined[i].1, n, PerStation(joined[i].1, n)))
  }

  /** The summary the script writes. */
  datatype Summary = Summary(totalResidents: int, totalStations: int,
                             topZeroStations: seq<Merged>, topHighDemand: seq<Merged>)

  function EinwohnerKey(m: Merged): real { m.einwohner as real }

  function RatioKey(m: Merged): real { if m.ratio.Finite? then m.ratio.r else 0.0 }

  predicate IsInfinite(m: Merged) { m.ratio.Infinite? }

  predicate IsFinite(m: Merged) { m.ratio.Finite? }

  function Einwohner(merged: seq<Merged>): seq<int>
  {
    seq(|merged|, i requires 0 <= i < |merged| => merged[i].einwohner)
  }

  function Summarise(merged: seq<Merged>, counts: seq<PlzStations>): Summary
  {
    Summary(SumInt(Einwohner(merged)), SumInt(Numbers(counts)),
            TopN(Filter(merged, IsInfinite), EinwohnerKey, 20),
            TopN(Filter(merged, IsFinite), RatioKey, 20))
  }

  /** The demand script after reading: no residents table is an error. */
  function ComputeDemand(res: Option<seq<(Option<int>, int)>>, counts: seq<PlzStations>): (r: Result<(seq<Merged>, Summary), string>)
    ensures r.Err? <==> res.None?
  {
    match res
    case None => Err("No residents data found")
    case Some(rows) =>
      var merged := MergeCounts(rows, counts);
      Ok((merged, Summarise(merged, counts)))
  }

  /** Fed the counts of `count_plz_occurrences`, the merge keeps every
      residents row in order, gives it the number of stations at its postal
      code (0 for a missing one or one without stations), and the ratio is
      infinite exactly where there is no station, and otherwise times the
      stations gives back the residents. */
  lemma {:induction false} MergeCountsSpec<L>(res: seq<(Option<int>, int)>, stations: seq<(int, L, Geometry)>)
    ensures var merged := MergeCounts(res, CountPlzOccurrences(stations));
      && |merged| == |res|
      && forall i :: 0 <= i < |merged| ==>
        && merged[i].plz == res[i].0
        && merged[i].einwohner == res[i].1
        && merged[i].numStations == (if res[i].0.Some? then StationsAt(stations, res[i].0.value) else 0)
        && (merged[i].ratio.Infinite? <==> merged[i].numStations == 0)
        && (merged[i].ratio.Finite? ==>
              merged[i].ratio.r * merged[i].numStations as real == merged[i].einwohner as real)
  {
    MergedRows(res, stations);
    MergedRatios(MergeCounts(res, CountPlzOccurrences(stations)));
  }

  /** The merge row by row: the residents row, its station count and the
      ratio of the two. */
  lemma {:induction false} MergedRows<L>(res: seq<(Option<int>, int)>, stations: seq<(int, L, Geometry)>)
    ensures var merged := MergeCounts(res, CountPlzOccurrences(stations));
      && |merged| == |res|
      && forall i :: 0 <= i < |merged| ==>
        && merged[i].plz == res[i].0
        && merged[i].einwohner == res[i].1
        && merged[i].numStations == (if res[i].0.Some? then StationsAt(stations, res[i].0.value) else 0)
        && merged[i].ratio == PerStation(res[i].1, merged[i].numStations)
  {
    var counts := CountPlzOccurrences(stations);
    SomeKeyedUnique(stations);
    LeftJoinUnique(res, SomeKeyed(counts));
    var merged := MergeCounts(res, counts);
    forall i | 0 <= i < |merged|
      ensures merged[i].numStations == (if res[i].0.Some? then StationsAt(stations, res[i].0.value) else 0)
    {
      MergedRowCount(res[i].0, stations);
    }
  }

  /** Rows whose ratio is their residents per station, for counts that are
      not negative. */
  lemma {:induction false} MergedRatios(merged: seq<Merged>)
    requires forall i :: 0 <= i < |merged| ==>
      merged[i].numStations >= 0 && merged[i].ratio == PerStation(merged[i].einwohner, merged[i].numStations)
    ensures forall i :: 0 <= i < |merged| ==>
      && (merged[i].ratio.Infinite? <==> merged[i].numStations == 0)
      && (merged[i].ratio.Finite? ==> merged[i].ratio.r * merged[i].numStations as real == merged[i].einwohner as real)
  {
    forall i | 0 <= i < |merged|
      ensures merged[i].ratio.Infinite? <==> merged[i].numStations == 0
      ensures merged[i].ratio.Finite? ==> merged[i].ratio.r * merged[i].numStations as real == merged[i].einwohner as real
    {
      PerStationSpec(merged[i].einwohner, merged[i].numStations);
    }
  }

  /** No stations, or a negative count, give an infinite ratio; otherwise
      the ratio times the stations is the residents. */
  lemma {:induction false} PerStationSpec(einwohner: int, stations: int)
    ensures PerStation(einwohner, stations).Infinite? <==> stations <= 0
    ensures PerStation(einwohner, stations).Finite? ==>
      PerStation(einwohner, stations).r * stations as real == einwohner as real
  {
  }

  lemma {:induction false} SomeKeyedUnique<L>(stations: seq<(int, L, Geometry)>)
    ensures UniqueKeys(SomeKeyed(CountPlzOccurrences(stations)))
  {
    var counts := CountPlzOccurrences(stations);
    var keyed := SomeKeyed(counts);
    CountsKeyedUnique(stations);
    var plain := CountsKeyed(counts);
    forall i, j | 0 <= i < j < |keyed| ensures keyed[i].0 != keyed[j].0 {
      assert plain[i].0 != plain[j].0;
    }
  }

  /** The count the merge finds for a postal code is its number of stations,
      and 0 for a missing postal code. */
  lemma {:induction false} MergedRowCount<L>(plz: Option<int>, stations: seq<(int, L, Geometry)>)
    ensures LookupRight(SomeKeyed(CountPlzOccurrences(stations)), plz).GetOr(0)
      == if plz.Some? then StationsAt(stations, plz.value) else 0
  {
    var counts := CountPlzOccurrences(stations);
    if plz.Some? {
      CountOfPlz(stations, plz.value);
      LookupSomeKeyed(counts, plz.value);
    } else {
      NotFound(SomeKeyed(counts), plz);
    }
  }

  lemma {:induction false} LookupSomeKeyed(counts: seq<PlzStations>, p: int)
    ensures LookupRight(SomeKeyed(counts), Some(p)) == LookupRight(CountsKeyed(counts), p)
  {
    if counts != [] {
      LookupSomeKeyed(counts[1..], p);
      assert SomeKeyed(counts)[1..] == SomeKeyed(counts[1..]);
      assert CountsKeyed(counts)[1..] == CountsKeyed(counts[1..]);
    }
  }

  /** Residents are summed over every residents row, stations over every
      counts row, so the station total is the number of preprocessed
      stations. */
  lemma {:induction false} SummaryTotals<L>(res: seq<(Option<int>, int)>, stations: seq<(int, L, Geometry)>)
    ensures var s := Summarise(MergeCounts(res, CountPlzOccurrences(stations)), CountPlzOccurrences(stations));
      && s.totalResidents == SumInt(seq(|res|, i requires 0 <= i < |res| => res[i].1))
      && s.totalStations == |stations|
  {
    var merged := MergeCounts(res, CountPlzOccurrences(stations));
    MergeCountsSpec(res, stations);
    CountPlzOccurrencesSpec(stations);
    assert Einwohner(merged) == seq(|res|, i requires 0 <= i < |res| => res[i].1);
  }

  /** Every row is either without stations or with some, never both. */
  lemma {:induction false} SummaryPartition<L>(res: seq<(Option<int>, int)>, stations: seq<(int, L, Geometry)>)
    ensures var merged := MergeCounts(res, CountPlzOccurrences(stations));
      |Filter(merged, IsInfinite)| + |Filter(merged, IsFinite)| == |merged|
  {
    FilterPartition(MergeCounts(res, CountPlzOccurrences(stations)), IsInfinite, IsFinite);
  }

  /** Every merged row has an infinite ratio exactly when it has no
      station. */
  lemma {:induction false} MergedMembers<L>(res: seq<(Option<int>, int)>, stations: seq<(int, L, Geometry)>)
    ensures forall x :: x in MergeCounts(res, CountPlzOccurrences(stations)) ==>
      (x.ratio.Infinite? <==> x.numStations == 0) && (x.ratio.Finite? ==> x.numStations > 0)
  {
    var merged := MergeCounts(res, CountPlzOccurrences(stations));
    MergedRows(res, stations);
    forall x | x in merged
      ensures (x.ratio.Infinite? <==> x.numStations == 0) && (x.ratio.Finite? ==> x.numStations > 0)
    {
      var i :| 0 <= i < |merged| && merged[i] == x;
      PerStationSpec(x.einwohner, x.numStations);
    }
  }

  /** The station-less list: at most 20 rows, most residents first, drawn
      from the rows without stations, none left out with more residents. */
  lemma {:induction false} TopZeroStationsSpec<L>(res: seq<(Option<int>, int)>, stations: seq<(int, L, Geometry)>)
    ensures var merged := MergeCounts(res, CountPlzOccurrences(stations));
      var top := Summarise(merged, CountPlzOccurrences(stations)).topZeroStations;
      var zero := Filter(merged, IsInfinite);
      && |top| <= 20
      && SortedDesc(top, EinwohnerKey)
      && multiset(top) <= multiset(zero)
      && (forall x, y :: x in top && y in multiset(zero) - multiset(top) ==> EinwohnerKey(y) <= EinwohnerKey(x))
      && (forall x :: x in top ==> x in merged && x.numStations == 0)
  {
    MergedMembers(res, stations);
    TopOfStationless(MergeCounts(res, CountPlzOccurrences(stations)));
  }

  /** The top 20 rows without stations of rows whose ratio is infinite
      exactly when they have no station. */
  lemma {:induction false} TopOfStationless(merged: seq<Merged>)
    requires forall x :: x in merged ==> (x.ratio.Infinite? <==> x.numStations == 0)
    ensures var zero := Filter(merged, IsInfinite);
      var top := TopN(zero, EinwohnerKey, 20);
      && |top| <= 20
      && SortedDesc(top, EinwohnerKey)
      && multiset(top) <= multiset(zero)
      && (forall x, y :: x in top && y in multiset(zero) - multiset(top) ==> EinwohnerKey(y) <= EinwohnerKey(x))
      && (forall x :: x in top ==> x in merged && x.numStations == 0)
  {
    var zero := Filter(merged, IsInfinite);
    var top := TopN(zero, EinwohnerKey, 20);
    TopNSpec(zero, EinwohnerKey, 20);
    forall x | x in top ensures x in merged && x.numStations == 0 {
      assert x in multiset(zero);
    }
  }

  /** The high-demand list: at most 20 rows, highest residents per station
      first, drawn from the rows with stations, none left out ranking
      higher. */
  lemma {:induction false} TopHighDemandSpec<L>(res: seq<(Option<int>, int)>, stations: seq<(int, L, Geometry)>)
    ensures var merged := MergeCounts(res, CountPlzOccurrences(stations));
      var top := Summarise(merged, CountPlzOccurrences(stations)).topHighDemand;
      var high := Filter(merged, IsFinite);
      && |top| <= 20
      && SortedDesc(top, RatioKey)
      && multiset(top) <= multiset(high)
      && (forall x, y :: x in top && y in multiset(high) - multiset(top) ==> RatioKey(y) <= RatioKey(x))
      && (forall x :: x in top ==> x in merged && x.numStations > 0)
  {
    MergedMembers(res, stations);
    TopOfServed(MergeCounts(res, CountPlzOccurrences(stations)));
  }

  /** The top 20 rows with a finite ratio of rows whose ratio is finite only
      when they have stations. */
  lemma {:induction false} TopOfServed(merged: seq<Merged>)
    requires forall x :: x in merged ==> (x.ratio.Finite? ==> x.numStations > 0)
    ensures var high := Filter(merged, IsFinite);
      var top := TopN(high, RatioKey, 20);
      && |top| <= 20
      && SortedDesc(top, RatioKey)
      && multiset(top) <= multiset(high)
      && (forall x, y :: x in top && y in multiset(high) - multiset(top) ==> RatioKey(y) <= RatioKey(x))
      && (forall x :: x in top ==> x in merged && x.numStations > 0)
  {
    var high := Filter(merged, IsFinite);
    var top := TopN(high, RatioKey, 20);
    TopNSpec(high, RatioKey, 20);
    forall x | x in top ensures x in merged && x.numStations > 0 {
      assert x in multiset(high);
    }
  }

  /** The three spellings of the rule disagree: without stations the layer
      and the event give the residents, the script `+inf`, the record the
      residents over one; with five stations the record divides by six. */
  lemma DemandRulesDisagree()
    ensures DemandOf(500, 0) == 500.0 && PerStation(500, 0) == Infinite
      && DemandScore(DemandResult("", 0.0, 500, 0)) == Some(500.0)
    ensures DemandOf(500, 5) == 100.0 && PerStation(500, 5) == Finite(100.0)
      && DemandScore(DemandResult("", 0.0, 500, 5)) == Some(500.0 / 6.0)
  {
  }
}
