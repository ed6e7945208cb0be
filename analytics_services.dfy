/** The analytics domain service: residents per station for one postal code
    and for every postal code with stations, the heat-map intensities, the
    high-demand filter and the demand classification. The station and
    population look-ups go to the station and demographic repositories. */
module AnalyticsServices {
  import opened Wrappers
  import opened Clock
  import opened Tables
  import opened Analytics
  import Text
  import Numeric
  import Charging
  import Demographics
  import StationRepository
  import DemographicRepository

  // ------------------------------------------------------------ classification

  /** `_classify_demand_level`: at least 200 residents per station is
      critical, at least 100 high, at least 50 medium, anything less low. */
  function Classify(residentsPerStation: real): (level: string)
    ensures level == Critical <==> residentsPerStation >= 200.0
    ensures level == High <==> 100.0 <= residentsPerStation < 200.0
    ensures level == Medium <==> 50.0 <= residentsPerStation < 100.0
    ensures level == Low <==> residentsPerStation < 50.0
  {
    if residentsPerStation >= 200.0 then Critical
    else if residentsPerStation >= 100.0 then High
    else if residentsPerStation >= 50.0 then Medium
    else Low
  }

  /** The position of a level in the order low, medium, high, critical. */
  function Rank(level: string): nat
  {
    if level == Critical then 3 else if level == High then 2 else if level == Medium then 1 else 0
  }

  /** More residents per station never gives a lower level. */
  lemma {:induction false} ClassifyMonotone(x: real, y: real)
    requires x <= y
    ensures Rank(Classify(x)) <= Rank(Classify(y))
  {
  }

  /** A classified analysis that is high demand needs more stations; the
      converse fails, since 60 residents per station is only medium. */
  lemma {:induction false} HighDemandNeedsMoreStations(a: DemandAnalysis)
    requires a.metrics.demandLevel == Classify(a.DemandScore())
    ensures a.IsHighDemand() <==> a.DemandScore() >= 100.0
    ensures a.IsHighDemand() ==> a.NeedsMoreStations()
  {
  }

  lemma NeedsMoreStationsWithoutHighDemand()
    ensures var a := DemandAnalysis("10115", DemandMetrics(60.0, Classify(60.0), 1, 60), None);
      a.NeedsMoreStations() && !a.IsHighDemand()
  {
  }

  // ------------------------------------------------------------ one postal code

  /** Residents per station: the true quotient when there are stations,
      the resident count itself when there are none. */
  function ResidentsPerStation(stationCount: int, residentCount: int): (r: real)
    ensures stationCount > 0 ==> r * stationCount as real == residentCount as real
    ensures stationCount <= 0 ==> r == residentCount as real
    ensures residentCount >= 0 ==> r >= 0.0
  {
    if stationCount > 0 then residentCount as real / stationCount as real else residentCount as real
  }

  /** `calculate_demand_for_postal_code` given the station count and the
      population look-up: `None` without a population; otherwise the
      analysis, or the message of the validation that raises. */
  function DemandFor(postalCode: string, stationCount: int, residentCount: Option<int>, now: Moment)
    : (r: Result<Option<DemandAnalysis>, string>)
    ensures residentCount.None? ==> r == Ok(None)
    ensures residentCount.Some? && stationCount >= 0 && residentCount.value >= 0 && postalCode != "" ==>
      r.Ok? && r.value.Some? &&
      var a := r.value.value;
      && ValidAnalysis(a) && a.postalCode == postalCode && a.calculatedAt == Some(now)
      && a.metrics.stationCount == stationCount && a.metrics.residentCount == residentCount.value
      && a.DemandScore() == ResidentsPerStation(stationCount, residentCount.value)
      && a.metrics.demandLevel == Classify(a.DemandScore())
    ensures residentCount.Some? && residentCount.value < 0 ==> r == Err("Residents per station cannot be negative")
    ensures residentCount.Some? && stationCount >= 0 && residentCount.value >= 0 && postalCode == "" ==>
      r == Err("Postal code cannot be empty")
  {
    match residentCount
    case None => Ok(None)
    case Some(residents) =>
      var perStation := ResidentsPerStation(stationCount, residents);
      match MakeDemandMetrics(perStation, Classify(perStation), stationCount, residents)
      case Err(e) => Err(e)
      case Ok(metrics) =>
        match MakeDemandAnalysis(postalCode, metrics, Some(now))
        case Err(e) => Err(e)
        case Ok(a) => Ok(Some(a))
  }

  // ------------------------------------------------------------ all postal codes

  /** `calculate_demand_for_all_areas` over the given codes, in order: the
      analyses that exist, or the first message raised. */
  function DemandForAll(stations: seq<Charging.ChargingStation>, areas: seq<Demographics.DemographicArea>,
                        codes: seq<string>, now: Moment): Result<seq<DemandAnalysis>, string>
    reads set s | s in stations, set a | a in areas
  {
    if codes == [] then Ok([])
    else
      var before := DemandForAll(stations, areas, codes[..|codes| - 1], now);
      var code := codes[|codes| - 1];
      if before.Err? then before
      else
        match DemandFor(code, |Charging.AtPostalCode(stations, code)|, DemographicRepository.PopulationOf(areas, code), now)
        case Err(e) => Err(e)
        case Ok(None) => before
        case Ok(Some(a)) => Ok(before.value + [a])
  }

  /** The codes that have a population, in order. */
  function WithPopulation(areas: seq<Demographics.DemographicArea>, codes: seq<string>): (r: seq<string>)
    reads set a | a in areas
    ensures forall c :: c in r <==> c in codes && DemographicRepository.PopulationOf(areas, c).Some?
  {
    if codes == [] then []
    else
      var code := codes[|codes| - 1];
      assert codes == codes[..|codes| - 1] + [code];
      WithPopulation(areas, codes[..|codes| - 1])
        + (if DemographicRepository.PopulationOf(areas, code).Some? then [code] else [])
  }

  /** Once a prefix of the codes raises, the whole list raises the same. */
  lemma {:induction false} DemandForAllErrPersists(stations: seq<Charging.ChargingStation>, areas: seq<Demographics.DemographicArea>,
                                                   codes: seq<string>, k: nat, now: Moment)
    requires k <= |codes| && DemandForAll(stations, areas, codes[..k], now).Err?
    ensures DemandForAll(stations, areas, codes, now) == DemandForAll(stations, areas, codes[..k], now)
    decreases |codes| - k
  {
    if k == |codes| {
      assert codes[..k] == codes;
    } else {
      var init := codes[..|codes| - 1];
      assert init[..k] == codes[..k];
      DemandForAllErrPersists(stations, areas, init, k, now);
    }
  }

  /** One more code: its analysis is appended, or its message raised. */
  lemma {:induction false} DemandForAllStep(stations: seq<Charging.ChargingStation>, areas: seq<Demographics.DemographicArea>,
                         codes: seq<string>, k: nat, now: Moment)
    requires k < |codes|
    ensures var before := DemandForAll(stations, areas, codes[..k], now);
      var step := DemandFor(codes[k], |Charging.AtPostalCode(stations, codes[k])|, DemographicRepository.PopulationOf(areas, codes[k]), now);
      DemandForAll(stations, areas, codes[..k + 1], now) ==
        if before.Err? then before
        else if step.Err? then Err(step.error)
        else if step.value.None? then before
        else Ok(before.value + [step.value.value])
  {
    assert codes[..k + 1][..k] == codes[..k];
  }

  /** The loop step of `calculate_demand_for_all_areas`: the analyses so
      far grow by the next code's analysis, or the whole list raises its
      message. */
  lemma {:induction false} DemandForAllNext(stations: seq<Charging.ChargingStation>, areas: seq<Demographics.DemographicArea>,
                                            codes: seq<string>, k: nat, now: Moment, analyses: seq<DemandAnalysis>)
    requires k < |codes| && DemandForAll(stations, areas, codes[..k], now) == Ok(analyses)
    ensures var step := DemandFor(codes[k], |Charging.AtPostalCode(stations, codes[k])|, DemographicRepository.PopulationOf(areas, codes[k]), now);
      && (step.Err? ==> DemandForAll(stations, areas, codes, now) == Err(step.error))
      && (step.Ok? && step.value.None? ==> DemandForAll(stations, areas, codes[..k + 1], now) == Ok(analyses))
      && (step.Ok? && step.value.Some? ==> DemandForAll(stations, areas, codes[..k + 1], now) == Ok(analyses + [step.value.value]))
  {
    DemandForAllStep(stations, areas, codes, k, now);
    var step := DemandFor(codes[k], |Charging.AtPostalCode(stations, codes[k])|, DemographicRepository.PopulationOf(areas, codes[k]), now);
    if step.Err? {
      DemandForAllErrPersists(stations, areas, codes, k + 1, now);
    }
  }

  /** The postal codes of a list of analyses, in order. */
  function AnalysisCodes(analyses: seq<DemandAnalysis>): (r: seq<string>)
    ensures |r| == |analyses| && forall i :: 0 <= i < |analyses| ==> r[i] == analyses[i].postalCode
  {
    if analyses == [] then [] else [analyses[0].postalCode] + AnalysisCodes(analyses[1..])
  }

  lemma {:induction false} AnalysisCodesAppend(a: seq<DemandAnalysis>, b: seq<DemandAnalysis>)
    ensures AnalysisCodes(a + b) == AnalysisCodes(a) + AnalysisCodes(b)
  {
    var l, r := AnalysisCodes(a + b), AnalysisCodes(a) + AnalysisCodes(b);
    forall i | 0 <= i < |l|
      ensures l[i] == r[i]
    {
      if i < |a| {
        assert (a + b)[i] == a[i];
      } else {
        assert (a + b)[i] == b[i - |a|];
      }
    }
  }

  /** An analysis as the service computes it for its code. */
  predicate Computed(stations: seq<Charging.ChargingStation>, areas: seq<Demographics.DemographicArea>, a: DemandAnalysis)
    reads set s | s in stations, set x | x in areas
  {
    && ValidAnalysis(a)
    && a.metrics.stationCount == |Charging.AtPostalCode(stations, a.postalCode)|
    && DemographicRepository.PopulationOf(areas, a.postalCode) == Some(a.metrics.residentCount)
    && a.DemandScore() == ResidentsPerStation(a.metrics.stationCount, a.metrics.residentCount)
    && a.metrics.demandLevel == Classify(a.DemandScore())
  }

  /** Every analysis of the list is computed for its own code. */
  predicate AllComputed(stations: seq<Charging.ChargingStation>, areas: seq<Demographics.DemographicArea>,
                        analyses: seq<DemandAnalysis>)
    reads set s | s in stations, set x | x in areas
  {
    forall i :: 0 <= i < |analyses| ==> Computed(stations, areas, analyses[i])
  }

  /** With non-empty codes and valid areas nothing raises: there is one
      analysis per code that has a population, in the order of the codes,
      each computed for its code. */
  lemma {:induction false} DemandForAllSpec(stations: seq<Charging.ChargingStation>, areas: seq<Demographics.DemographicArea>,
                                            codes: seq<string>, now: Moment)
    requires forall i :: 0 <= i < |codes| ==> codes[i] != ""
    requires forall i :: 0 <= i < |areas| ==> areas[i].Valid()
    ensures var r := DemandForAll(stations, areas, codes, now);
      && r.Ok?
      && AnalysisCodes(r.value) == WithPopulation(areas, codes)
      && AllComputed(stations, areas, r.value)
  {
    if codes != [] {
      var init := codes[..|codes| - 1];
      DemandForAllSpec(stations, areas, init, now);
      DemandForAllSpecStep(stations, areas, codes, now);
    }
  }

  /** The step of `DemandForAllSpec` for the last code. */
  lemma {:induction false} DemandForAllSpecStep(stations: seq<Charging.ChargingStation>, areas: seq<Demographics.DemographicArea>,
                                                codes: seq<string>, now: Moment)
    requires codes != [] && codes[|codes| - 1] != ""
    requires forall i :: 0 <= i < |areas| ==> areas[i].Valid()
    requires var before := DemandForAll(stations, areas, codes[..|codes| - 1], now);
      && before.Ok?
      && AnalysisCodes(before.value) == WithPopulation(areas, codes[..|codes| - 1])
      && AllComputed(stations, areas, before.value)
    ensures var r := DemandForAll(stations, areas, codes, now);
      && r.Ok?
      && AnalysisCodes(r.value) == WithPopulation(areas, codes)
      && AllComputed(stations, areas, r.value)
  {
    var before := DemandForAll(stations, areas, codes[..|codes| - 1], now);
    var code := codes[|codes| - 1];
    var population := DemographicRepository.PopulationOf(areas, code);
    if population.Some? {
      var j :| 0 <= j < |areas| && areas[j].postalCode == code && population.value == areas[j].Population();
      assert areas[j].Valid();
      var a := DemandFor(code, |Charging.AtPostalCode(stations, code)|, population, now).value.value;
      AnalysisCodesAppend(before.value, [a]);
      assert AnalysisCodes([a]) == [code];
      ComputedAppend(stations, areas, before.value, a);
    }
  }

  lemma {:induction false} ComputedAppend(stations: seq<Charging.ChargingStation>, areas: seq<Demographics.DemographicArea>,
                                          analyses: seq<DemandAnalysis>, a: DemandAnalysis)
    requires AllComputed(stations, areas, analyses) && Computed(stations, areas, a)
    ensures AllComputed(stations, areas, analyses + [a])
  {
    var r := analyses + [a];
    forall i | 0 <= i < |r|
      ensures Computed(stations, areas, r[i])
    {
      if i < |analyses| {
        assert r[i] == analyses[i];
      }
    }
  }

  // ------------------------------------------------------------ heat map

  /** The colour intensity: the score over the 95th percentile, capped at
      one, when the percentile is positive; zero otherwise. */
  function Intensity(score: real, p95: real): (r: real)
  {
    if p95 > 0.0 then Numeric.Min(score / p95, 1.0) else 0.0
  }

  /** A non-negative score gets an intensity in [0, 1]; scores at or above
      a positive percentile get full intensity; a higher score never gets
      a lower intensity. */
  lemma {:induction false} IntensityBounds(score: real, p95: real)
    requires score >= 0.0
    ensures 0.0 <= Intensity(score, p95) <= 1.0
    ensures p95 > 0.0 && score >= p95 ==> Intensity(score, p95) == 1.0
  {
    if p95 > 0.0 && score >= p95 {
      assert score / p95 >= 1.0;
    }
  }

  lemma {:induction false} IntensityMonotone(x: real, y: real, p95: real)
    requires x <= y
    ensures Intensity(x, p95) <= Intensity(y, p95)
  {
    if p95 > 0.0 {
      assert x / p95 <= y / p95;
    }
  }

  /** `generate_heatmap_data`: one entry per analysis, in order, or the
      first message `HeatmapData` raises. */
  function HeatmapFor(analyses: seq<DemandAnalysis>, p95: real): Result<seq<HeatmapData>, string>
  {
    if analyses == [] then Ok([])
    else
      var before := HeatmapFor(analyses[..|analyses| - 1], p95);
      var a := analyses[|analyses| - 1];
      if before.Err? then before
      else
        match MakeHeatmapData(a.postalCode, a.DemandScore(), Intensity(a.DemandScore(), p95))
        case Err(e) => Err(e)
        case Ok(h) => Ok(before.value + [h])
  }

  /** Once a prefix raises, the whole heat map raises the same. */
  lemma {:induction false} HeatmapErrPersists(analyses: seq<DemandAnalysis>, k: nat, p95: real)
    requires k <= |analyses| && HeatmapFor(analyses[..k], p95).Err?
    ensures HeatmapFor(analyses, p95) == HeatmapFor(analyses[..k], p95)
    decreases |analyses| - k
  {
    if k == |analyses| {
      assert analyses[..k] == analyses;
    } else {
      var init := analyses[..|analyses| - 1];
      assert init[..k] == analyses[..k];
      HeatmapErrPersists(init, k, p95);
    }
  }

  /** Valid analyses never make `HeatmapData` raise: the heat map has one
      entry per analysis with its code, its score as value and an intensity
      in [0, 1]. */
  lemma {:induction false} HeatmapForValid(analyses: seq<DemandAnalysis>, p95: real)
    requires forall i :: 0 <= i < |analyses| ==> ValidAnalysis(analyses[i])
    ensures var r := HeatmapFor(analyses, p95);
      && r.Ok? && |r.value| == |analyses|
      && forall i :: 0 <= i < |analyses| ==>
           && r.value[i].postalCode == analyses[i].postalCode
           && r.value[i].value == analyses[i].DemandScore()
           && r.value[i].colorIntensity == Intensity(analyses[i].DemandScore(), p95)
           && 0.0 <= r.value[i].colorIntensity <= 1.0
  {
    if analyses != [] {
      var a := analyses[|analyses| - 1];
      HeatmapForValid(analyses[..|analyses| - 1], p95);
      IntensityBounds(a.DemandScore(), p95);
    }
  }

  // ------------------------------------------------------------ high demand

  /** Scores strictly above the threshold. */
  function Above(threshold: real): DemandAnalysis -> bool
  {
    (a: DemandAnalysis) => a.DemandScore() > threshold
  }

  /** `get_high_demand_areas` over given analyses: the codes of those whose
      score is strictly above the threshold, in order. */
  function HighDemandCodes(analyses: seq<DemandAnalysis>, threshold: real): seq<string>
  {
    AnalysisCodes(Filter(analyses, Above(threshold)))
  }

  /** A code is listed exactly when some analysis with it scores above the
      threshold; with the default threshold 50 that is an analysis that
      needs more stations. */
  lemma {:induction false} HighDemandCodesSpec(analyses: seq<DemandAnalysis>, threshold: real, code: string)
    ensures code in HighDemandCodes(analyses, threshold) <==>
      exists a :: a in analyses && a.postalCode == code && a.DemandScore() > threshold
    ensures code in HighDemandCodes(analyses, 50.0) <==>
      exists a :: a in analyses && a.postalCode == code && a.NeedsMoreStations()
  {
    var kept := Filter(analyses, Above(threshold));
    if code in HighDemandCodes(analyses, threshold) {
      var i :| 0 <= i < |kept| && AnalysisCodes(kept)[i] == code;
      assert kept[i] in kept;
    }
    if exists a :: a in analyses && a.postalCode == code && a.DemandScore() > threshold {
      var a :| a in analyses && a.postalCode == code && a.DemandScore() > threshold;
      assert a in kept;
      var i :| 0 <= i < |kept| && kept[i] == a;
      assert AnalysisCodes(kept)[i] == code;
    }
    var kept50 := Filter(analyses, Above(50.0));
    if code in HighDemandCodes(analyses, 50.0) {
      var i :| 0 <= i < |kept50| && AnalysisCodes(kept50)[i] == code;
      assert kept50[i] in kept50;
    }
    if exists a :: a in analyses && a.postalCode == code && a.NeedsMoreStations() {
      var a :| a in analyses && a.postalCode == code && a.NeedsMoreStations();
      assert a in kept50;
      var i :| 0 <= i < |kept50| && kept50[i] == a;
      assert AnalysisCodes(kept50)[i] == code;
    }
  }

  // ------------------------------------------------------------ the service

  class AnalyticsService {
    const chargingRepo: StationRepository.CsvChargingStationRepository
    const demographicRepo: DemographicRepository.ExcelDemographicRepository

    constructor(chargingRepo: StationRepository.CsvChargingStationRepository,
                demographicRepo: DemographicRepository.ExcelDemographicRepository)
      ensures this.chargingRepo == chargingRepo && this.demographicRepo == demographicRepo
    {
      this.chargingRepo := chargingRepo;
      this.demographicRepo := demographicRepo;
    }

    /** `calculate_demand_for_postal_code`, with `now` for the time stamp. */
    method CalculateDemandForPostalCode(postalCode: string, now: Moment) returns (r: Result<Option<DemandAnalysis>, string>)
      modifies chargingRepo, demographicRepo
      ensures chargingRepo.stations.Some? && demographicRepo.areas.Some?
      ensures r == DemandFor(postalCode, |Charging.AtPostalCode(chargingRepo.stations.value, postalCode)|,
                             DemographicRepository.PopulationOf(demographicRepo.areas.value, postalCode), now)
      ensures old(chargingRepo.stations).Some? ==> chargingRepo.stations == old(chargingRepo.stations)
      ensures old(demographicRepo.areas).Some? ==> demographicRepo.areas == old(demographicRepo.areas)
    {
      var stationCount := chargingRepo.CountByPostalCode(postalCode);
      var residentCount := demographicRepo.GetPopulationByPostalCode(postalCode);
      r := DemandFor(postalCode, stationCount, residentCount, now);
    }

    /** The loop of `calculate_demand_for_all_areas` over the given codes:
        the areas are loaded by the first look-up. */
    method DemandForCodes(codes: seq<string>, now: Moment) returns (r: Result<seq<DemandAnalysis>, string>)
      requires chargingRepo.stations.Some?
      modifies chargingRepo, demographicRepo
      ensures chargingRepo.stations == old(chargingRepo.stations)
      ensures old(demographicRepo.areas).Some? ==> demographicRepo.areas == old(demographicRepo.areas)
      ensures codes != [] ==> demographicRepo.areas.Some?
      ensures demographicRepo.areas.Some? ==> r == DemandForAll(chargingRepo.stations.value, demographicRepo.areas.value, codes, now)
      ensures demographicRepo.areas.None? ==> r == Ok([])
    {
      ghost var stations := chargingRepo.stations.value;
      var analyses := [];
      var k := 0;
      while k < |codes|
        invariant 0 <= k <= |codes|
        invariant chargingRepo.stations == Some(stations)
        invariant old(demographicRepo.areas).Some? ==> demographicRepo.areas == old(demographicRepo.areas)
        invariant k > 0 ==> demographicRepo.areas.Some?
        invariant demographicRepo.areas.Some? ==>
          DemandForAll(stations, demographicRepo.areas.value, codes[..k], now) == Ok(analyses)
        invariant demographicRepo.areas.None? ==> analyses == []
      {
        ghost var before := demographicRepo.areas;
        var analysis := CalculateDemandForPostalCode(codes[k], now);
        ghost var areas := demographicRepo.areas.value;
        assert before.Some? ==> before.value == areas;
        assert DemandForAll(stations, areas, codes[..k], now) == Ok(analyses) by {
          if before.None? {
            assert codes[..k] == [];
          }
        }
        DemandForAllNext(stations, areas, codes, k, now, analyses);
        if analysis.Err? {
          return Err(analysis.error);
        }
        if analysis.value.Some? {
          analyses := analyses + [analysis.value.value];
        }
        k := k + 1;
      }
      assert codes[..k] == codes;
      r := Ok(analyses);
    }

    /** `calculate_demand_for_all_areas`: one analysis per postal code with
        stations, sorted, for those with a population. */
    method CalculateDemandForAllAreas(now: Moment) returns (r: Result<seq<DemandAnalysis>, string>)
      modifies chargingRepo, demographicRepo
      ensures chargingRepo.stations.Some?
      ensures old(chargingRepo.stations).Some? ==> chargingRepo.stations == old(chargingRepo.stations)
      ensures old(demographicRepo.areas).Some? ==> demographicRepo.areas == old(demographicRepo.areas)
      ensures demographicRepo.areas.Some? ==>
        r == DemandForAll(chargingRepo.stations.value, demographicRepo.areas.value,
                          Text.SortedSet(Charging.Codes(chargingRepo.stations.value)), now)
      ensures demographicRepo.areas.None? ==> Charging.Codes(chargingRepo.stations.value) == [] && r == Ok([])
    {
      var codes := chargingRepo.PostalCodesWithStations();
      ghost var all := Charging.Codes(chargingRepo.stations.value);
      assert all != [] ==> codes != [] by {
        if all != [] {
          assert all[0] in all;
        }
      }
      r := DemandForCodes(codes, now);
    }

    /** `generate_heatmap_data`, with the 95th percentile of the scores
        handed in. */
    method GenerateHeatmapData(analyses: seq<DemandAnalysis>, p95: real) returns (r: Result<seq<HeatmapData>, string>)
      ensures r == HeatmapFor(analyses, p95)
    {
      if analyses == [] {
        return Ok([]);
      }
      var heatmap := [];
      var k := 0;
      while k < |analyses|
        invariant 0 <= k <= |analyses|
        invariant HeatmapFor(analyses[..k], p95) == Ok(heatmap)
      {
        var score := analyses[k].DemandScore();
        var intensity := if p95 > 0.0 then Numeric.Min(score / p95, 1.0) else 0.0;
        var entry := MakeHeatmapData(analyses[k].postalCode, score, intensity);
        assert analyses[..k + 1][..k] == analyses[..k];
        if entry.Err? {
          HeatmapErrPersists(analyses, k + 1, p95);
          return Err(entry.error);
        }
        heatmap := heatmap + [entry.value];
        k := k + 1;
      }
      assert analyses[..k] == analyses;
      r := Ok(heatmap);
    }

    /** `get_high_demand_areas`: the codes scoring strictly above the
        threshold (50 by default), among all analyses. */
    method GetHighDemandAreas(threshold: real, now: Moment) returns (r: Result<seq<string>, string>)
      modifies chargingRepo, demographicRepo
      ensures chargingRepo.stations.Some?
      ensures old(chargingRepo.stations).Some? ==> chargingRepo.stations == old(chargingRepo.stations)
      ensures old(demographicRepo.areas).Some? ==> demographicRepo.areas == old(demographicRepo.areas)
      ensures demographicRepo.areas.Some? ==>
        var all := DemandForAll(chargingRepo.stations.value, demographicRepo.areas.value,
                                Text.SortedSet(Charging.Codes(chargingRepo.stations.value)), now);
        r == if all.Err? then Err(all.error) else Ok(HighDemandCodes(all.value, threshold))
      ensures demographicRepo.areas.None? ==> r == Ok([])
    {
      var analyses := CalculateDemandForAllAreas(now);
      if analyses.Err? {
        return Err(analyses.error);
      }
      r := Ok(HighDemandCodes(analyses.value, threshold));
    }
  }
}
