/** Application services: submitting and reviewing suggestions, the demand
    report, and the residents layer of the map. */
module Application {
  import opened Wrappers
  import opened Clock
  import opened Text
  import opened Tables
  import opened Dicts
  import opened Community
  import opened SuggestionRepository
  import opened Analytics
  import AnalyticsServices
  import GeographyServices
  import Demographics
  import DemographicsServices
  import Numeric
  import Charging

  // ------------------------------------------------------------ identifiers

  /** `max([s.id for s in suggestions], default=0)`. */
  function MaxId(records: seq<SuggestionRecord>): (m: int)
    ensures records == [] ==> m == 0
    ensures records != [] ==> exists i :: 0 <= i < |records| && records[i].id == m
    ensures forall i :: 0 <= i < |records| ==> records[i].id <= m
  {
    if records == [] then 0
    else if |records| == 1 then records[0].id
    else
      var rest := MaxId(records[1..]);
      assert forall i :: 1 <= i < |records| ==> records[i] == records[1..][i - 1];
      if records[0].id >= rest then records[0].id else rest
  }

  /** The identifier `submit_suggestion` hands out. */
  function NextId(records: seq<SuggestionRecord>): int
  {
    MaxId(records) + 1
  }

  /** The new identifier is larger than every identifier in the file, so it
      is not in use; on an empty file it is 1. */
  lemma {:induction false} NextIdFresh(records: seq<SuggestionRecord>)
    ensures forall i :: 0 <= i < |records| ==> records[i].id < NextId(records)
    ensures records == [] ==> NextId(records) == 1
  {
  }

  // ------------------------------------------------------------ reviews

  /** The status a review action asks for, compared case-insensitively;
      `None` for any other action. */
  function ReviewAction(action: string): (r: Option<SuggestionStatus>)
    ensures r == Some(Approved) <==> Lower(action) == "approve"
    ensures r == Some(Rejected) <==> Lower(action) == "reject"
  {
    if Lower(action) == "approve" then Some(Approved)
    else if Lower(action) == "reject" then Some(Rejected)
    else None
  }

  /** The object of a suggestion after `approve` or `reject`. */
  function Reviewed(rec: SuggestionRecord, status: SuggestionStatus, reviewer: string, notes: string, now: Moment): SuggestionRecord
  {
    rec.(status := StatusValue(status), review := Some(ReviewInfo(reviewer, now, Some(notes))))
  }

  // ------------------------------------------------------------ the report

  datatype DemandReport = DemandReport(
    totalAreasAnalyzed: nat, highDemandAreas: nat, areasNeedingStations: nat, averageDemandScore: real)

  function CountHighDemand(analyses: seq<DemandAnalysis>): nat
  {
    if analyses == [] then 0
    else CountHighDemand(analyses[..|analyses| - 1]) + (if analyses[|analyses| - 1].IsHighDemand() then 1 else 0)
  }

  function CountNeedingStations(analyses: seq<DemandAnalysis>): nat
  {
    if analyses == [] then 0
    else CountNeedingStations(analyses[..|analyses| - 1]) + (if analyses[|analyses| - 1].NeedsMoreStations() then 1 else 0)
  }

  function Scores(analyses: seq<DemandAnalysis>): (r: seq<real>)
    ensures |r| == |analyses| && forall i :: 0 <= i < |analyses| ==> r[i] == analyses[i].DemandScore()
  {
    seq(|analyses|, i requires 0 <= i < |analyses| => analyses[i].DemandScore())
  }

  /** `generate_demand_report` over the analyses: the mean score is 0 for
      no analyses. */
  function ReportOf(analyses: seq<DemandAnalysis>): DemandReport
  {
    DemandReport(|analyses|, CountHighDemand(analyses), CountNeedingStations(analyses),
                 if analyses == [] then 0.0 else SumReal(Scores(analyses)) / |analyses| as real)
  }

  /** For classified analyses the counts are nested: every high-demand area
      needs stations, and no count exceeds the number of areas. */
  lemma {:induction false} ReportCountsNested(analyses: seq<DemandAnalysis>)
    requires forall i :: 0 <= i < |analyses| ==> analyses[i].metrics.demandLevel == AnalyticsServices.Classify(analyses[i].DemandScore())
    ensures CountHighDemand(analyses) <= CountNeedingStations(analyses) <= |analyses|
  {
    if analyses != [] {
      var last := analyses[|analyses| - 1];
      ReportCountsNested(analyses[..|analyses| - 1]);
      AnalyticsServices.HighDemandNeedsMoreStations(last);
    }
  }

  /** A sum of values in [lo, hi] lies between n * lo and n * hi. */
  lemma {:induction false} SumRealBounds(s: seq<real>, lo: real, hi: real)
    requires forall i :: 0 <= i < |s| ==> lo <= s[i] <= hi
    ensures |s| as real * lo <= SumReal(s) <= |s| as real * hi
  {
    if s != [] {
      SumRealBounds(s[..|s| - 1], lo, hi);
    }
  }

  /** The mean score lies between the lowest and the highest score. */
  lemma {:induction false} AverageWithinScores(analyses: seq<DemandAnalysis>)
    requires analyses != []
    ensures Numeric.SeqMin(Scores(analyses)) <= ReportOf(analyses).averageDemandScore <= Numeric.SeqMax(Scores(analyses))
  {
    var s := Scores(analyses);
    assert ReportOf(analyses).averageDemandScore == SumReal(s) / |s| as real;
    MeanWithin(s);
  }

  /** The mean of a non-empty list of reals lies between its smallest and
      its largest element. */
  lemma {:induction false} MeanWithin(s: seq<real>)
    requires s != []
    ensures Numeric.SeqMin(s) <= SumReal(s) / |s| as real <= Numeric.SeqMax(s)
  {
    MeanBounds(s, Numeric.SeqMin(s), Numeric.SeqMax(s));
  }

  /** The mean of values in [lo, hi] lies in [lo, hi]. */
  lemma {:induction false} MeanBounds(s: seq<real>, lo: real, hi: real)
    requires s != [] && forall i :: 0 <= i < |s| ==> lo <= s[i] <= hi
    ensures lo <= SumReal(s) / |s| as real <= hi
  {
    SumRealBounds(s, lo, hi);
    DivideBounds(SumReal(s), |s| as real, lo, hi);
  }

  lemma {:induction false} DivideBounds(sum: real, n: real, lo: real, hi: real)
    requires n > 0.0 && n * lo <= sum <= n * hi
    ensures lo <= sum / n <= hi
  {
    var q := sum / n;
    assert sum == q * n;
    assert (q - lo) * n >= 0.0 && (hi - q) * n >= 0.0;
  }

  // ------------------------------------------------------------ residents layer

  /** The dictionary `generate_residents_layer` fills: each area writes its
      population under its code, in order. */
  function ResidentsLayer(areas: seq<Demographics.DemographicArea>): Dict<string, int>
    reads set a | a in areas
  {
    if areas == [] then []
    else
      var last := areas[|areas| - 1];
      Put(ResidentsLayer(areas[..|areas| - 1]), last.postalCode, last.Population())
  }

  /** The population of the last area with the code. */
  function LastPopulation(areas: seq<Demographics.DemographicArea>, postalCode: string): (r: Option<int>)
    reads set a | a in areas
    ensures r.None? <==> forall i :: 0 <= i < |areas| ==> areas[i].postalCode != postalCode
  {
    if areas == [] then None
    else if areas[|areas| - 1].postalCode == postalCode then Some(areas[|areas| - 1].Population())
    else
      var init := areas[..|areas| - 1];
      assert forall i :: 0 <= i < |init| ==> init[i] == areas[i];
      LastPopulation(init, postalCode)
  }

  /** It is the population of the area at the last index carrying the
      code. */
  lemma {:induction false} LastPopulationIsLast(areas: seq<Demographics.DemographicArea>, postalCode: string, i: nat)
    requires i < |areas| && areas[i].postalCode == postalCode
    requires forall k :: i < k < |areas| ==> areas[k].postalCode != postalCode
    ensures LastPopulation(areas, postalCode) == Some(areas[i].Population())
  {
    if i < |areas| - 1 {
      var init := areas[..|areas| - 1];
      LastPopulationIsLast(init, postalCode, i);
    }
  }

  /** The layer has one entry per code, and a code maps to the population
      of the last area carrying it: later duplicates overwrite earlier ones. */
  lemma {:induction false} ResidentsLayerSpec(areas: seq<Demographics.DemographicArea>)
    ensures UniqueKeys(ResidentsLayer(areas))
    ensures forall code :: LookupRight(ResidentsLayer(areas), code) == LastPopulation(areas, code)
  {
    if areas != [] {
      var last := areas[|areas| - 1];
      ResidentsLayerSpec(areas[..|areas| - 1]);
      PutSpec(ResidentsLayer(areas[..|areas| - 1]), last.postalCode, last.Population());
    }
  }

  // ------------------------------------------------------------ services

  class SuggestionService {
    const suggestionRepo: JsonSuggestionRepository
    const geographyService: GeographyServices.GeographyService

    constructor(suggestionRepo: JsonSuggestionRepository, geographyService: GeographyServices.GeographyService)
      ensures this.suggestionRepo == suggestionRepo && this.geographyService == geographyService
    {
      this.suggestionRepo := suggestionRepo;
      this.geographyService := geographyService;
    }

    /** `submit_suggestion`: an invalid Berlin code raises and saves
        nothing; otherwise a pending suggestion with the next identifier is
        appended to the file. */
    method SubmitSuggestion(postalCode: string, address: string, reason: string, now: Moment)
      returns (r: Result<ChargingSuggestion, string>)
      modifies suggestionRepo
      ensures !GeographyServices.ValidBerlinPostalCode(postalCode) ==>
        r == Err("Invalid Berlin postal code") && suggestionRepo.file == old(suggestionRepo.file)
      ensures GeographyServices.ValidBerlinPostalCode(postalCode) && address == "" ==>
        r == Err("Address cannot be empty") && suggestionRepo.file == old(suggestionRepo.file)
      ensures GeographyServices.ValidBerlinPostalCode(postalCode) && address != "" && reason == "" ==>
        r == Err("Reason cannot be empty") && suggestionRepo.file == old(suggestionRepo.file)
      ensures GeographyServices.ValidBerlinPostalCode(postalCode) && address != "" && reason != "" ==>
        && r.Ok? && fresh(r.value) && r.value.IsPending()
        && r.value.Record() == SuggestionRecord(NextId(Reload(old(suggestionRepo.file))), postalCode, address, reason,
                                                now, StatusValue(Pending), None)
        && suggestionRepo.file == Reload(old(suggestionRepo.file)) + [r.value.Record()]
    {
      var valid := geographyService.ValidateBerlinPostalCode(postalCode);
      if !valid {
        return Err("Invalid Berlin postal code");
      }
      var all := suggestionRepo.GetAll();
      var newId := MaxId(Records(all)) + 1;
      var suggestion := NewChargingSuggestion(newId, postalCode, address, reason, now, Pending, None);
      if suggestion.Err? {
        return Err(suggestion.error);
      }
      suggestionRepo.Save(suggestion.value);
      r := suggestion;
    }

    /** `review_suggestion`: `False`, with the file untouched, when the
        identifier is unknown or the action is neither approve nor reject;
        otherwise the first suggestion with the identifier is reviewed and
        written back. */
    method ReviewSuggestion(suggestionId: int, action: string, reviewer: string, notes: string, now: Moment)
      returns (ok: bool)
      modifies suggestionRepo
      ensures var records := Reload(old(suggestionRepo.file));
        ok <==> IndexOfId(records, suggestionId) < |records| && ReviewAction(action).Some?
      ensures !ok ==> suggestionRepo.file == old(suggestionRepo.file)
      ensures ok ==>
        var records := Reload(old(suggestionRepo.file));
        var i := IndexOfId(records, suggestionId);
        suggestionRepo.file == records[i := Reviewed(records[i], ReviewAction(action).value, reviewer, notes, now)]
    {
      var suggestion := suggestionRepo.GetById(suggestionId);
      if suggestion.None? {
        return false;
      }
      var s := suggestion.value;
      ghost var records := Reload(suggestionRepo.file);
      ghost var i := IndexOfId(records, suggestionId);
      if Lower(action) == "approve" {
        s.Approve(reviewer, Some(notes), now);
      } else if Lower(action) == "reject" {
        s.Reject(reviewer, Some(notes), now);
      } else {
        return false;
      }
      assert s.Record() == Reviewed(records[i], ReviewAction(action).value, reviewer, notes, now);
      ReplaceFirstSpec(records, suggestionId, s.Record());
      suggestionRepo.Update(s);
      ok := true;
    }

    /** `get_suggestions_by_postal_code`. */
    method GetSuggestionsByPostalCode(postalCode: string) returns (r: seq<ChargingSuggestion>)
      ensures Records(r) == Filter(Reload(suggestionRepo.file), HasPostalCode(postalCode))
    {
      r := suggestionRepo.GetByPostalCode(postalCode);
    }

    /** `get_pending_suggestions`. */
    method GetPendingSuggestions() returns (r: seq<ChargingSuggestion>)
      ensures Records(r) == Filter(Reload(suggestionRepo.file), HasStatus(Pending))
    {
      r := suggestionRepo.GetPendingSuggestions();
    }

    /** `get_approved_suggestions`. */
    method GetApprovedSuggestions() returns (r: seq<ChargingSuggestion>)
      ensures Records(r) == Filter(Reload(suggestionRepo.file), HasStatus(Approved))
    {
      r := suggestionRepo.GetApprovedSuggestions();
    }
  }

  class AnalyticsServiceApp {
    const analyticsService: AnalyticsServices.AnalyticsService

    constructor(analyticsService: AnalyticsServices.AnalyticsService)
      ensures this.analyticsService == analyticsService
    {
      this.analyticsService := analyticsService;
    }

    /** `generate_demand_report` over all analyses. */
    method GenerateDemandReport(now: Moment) returns (r: Result<DemandReport, string>)
      modifies analyticsService.chargingRepo, analyticsService.demographicRepo
      ensures analyticsService.chargingRepo.stations.Some?
      ensures analyticsService.demographicRepo.areas.Some? ==>
        var all := AnalyticsServices.DemandForAll(
          analyticsService.chargingRepo.stations.value, analyticsService.demographicRepo.areas.value,
          SortedSet(Charging.Codes(analyticsService.chargingRepo.stations.value)), now);
        r == if all.Err? then Err(all.error) else Ok(ReportOf(all.value))
      ensures analyticsService.demographicRepo.areas.None? ==> r == Ok(ReportOf([]))
    {
      var analyses := analyticsService.CalculateDemandForAllAreas(now);
      if analyses.Err? {
        return Err(analyses.error);
      }
      r := Ok(ReportOf(analyses.value));
    }
  }

  class MapService {
    const demographicsService: DemographicsServices.DemographicsService

    constructor(demographicsService: DemographicsServices.DemographicsService)
      ensures this.demographicsService == demographicsService
    {
      this.demographicsService := demographicsService;
    }

    /** `generate_residents_layer`: postal code to population over all
        demographic areas. */
    method GenerateResidentsLayer() returns (layer: Dict<string, int>)
      modifies demographicsService.repository
      ensures demographicsService.repository.areas.Some?
      ensures layer == ResidentsLayer(demographicsService.repository.areas.value)
      ensures old(demographicsService.repository.areas).Some? ==>
        demographicsService.repository.areas == old(demographicsService.repository.areas)
    {
      var areas := demographicsService.GetAllDemographicAreas();
      layer := [];
      var k := 0;
      while k < |areas|
        invariant 0 <= k <= |areas|
        invariant layer == ResidentsLayer(areas[..k])
      {
        assert areas[..k + 1][..k] == areas[..k];
        layer := Put(layer, areas[k].postalCode, areas[k].Population());
        k := k + 1;
      }
      assert areas[..k] == areas;
    }
  }
}
