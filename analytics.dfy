/** Analytics entities: the `DemandMetrics` and `HeatmapData` value objects
    and the `DemandAnalysis` entity, with their validation and the demand
    predicates. A validation that raises `ValueError` becomes `Err` carrying
    the message. */
module Analytics {
  import opened Wrappers
  import opened Clock

  /** The demand levels the classification hands out, lowest first. */
  const Low := "low"
  const Medium := "medium"
  const High := "high"
  const Critical := "critical"

  datatype DemandMetrics = DemandMetrics(residentsPerStation: real, demandLevel: string, stationCount: int, residentCount: int)

  predicate ValidMetrics(m: DemandMetrics) {
    m.residentsPerStation >= 0.0 && m.stationCount >= 0 && m.residentCount >= 0
  }

  /** `DemandMetrics(...)`: the ratio is checked first, then the station
      count, then the resident count. */
  function MakeDemandMetrics(residentsPerStation: real, demandLevel: string, stationCount: int, residentCount: int)
    : (r: Result<DemandMetrics, string>)
    ensures r.Ok? <==> ValidMetrics(DemandMetrics(residentsPerStation, demandLevel, stationCount, residentCount))
    ensures r.Ok? ==> r.value == DemandMetrics(residentsPerStation, demandLevel, stationCount, residentCount)
    ensures residentsPerStation < 0.0 ==> r == Err("Residents per station cannot be negative")
    ensures residentsPerStation >= 0.0 && stationCount < 0 ==> r == Err("Station count cannot be negative")
    ensures residentsPerStation >= 0.0 && stationCount >= 0 && residentCount < 0 ==> r == Err("Resident count cannot be negative")
  {
    if residentsPerStation < 0.0 then Err("Residents per station cannot be negative")
    else if stationCount < 0 then Err("Station count cannot be negative")
    else if residentCount < 0 then Err("Resident count cannot be negative")
    else Ok(DemandMetrics(residentsPerStation, demandLevel, stationCount, residentCount))
  }

  datatype DemandAnalysis = DemandAnalysis(postalCode: string, metrics: DemandMetrics, calculatedAt: Option<Moment>)
  {
    /** `get_demand_score`: the residents per station. */
    function DemandScore(): real
    {
      metrics.residentsPerStation
    }

    /** `is_high_demand`: the level is "high" or "critical". */
    predicate IsHighDemand()
    {
      metrics.demandLevel in [High, Critical]
    }

    /** `needs_more_stations`: more than 50 residents per station. */
    predicate NeedsMoreStations()
    {
      DemandScore() > 50.0
    }
  }

  /** An analysis as its constructors let it be: a postal code and valid
      metrics. */
  predicate ValidAnalysis(a: DemandAnalysis) {
    a.postalCode != "" && ValidMetrics(a.metrics)
  }

  /** `DemandAnalysis(...)`: the postal code must not be empty. */
  function MakeDemandAnalysis(postalCode: string, metrics: DemandMetrics, calculatedAt: Option<Moment>)
    : (r: Result<DemandAnalysis, string>)
    ensures r.Ok? <==> postalCode != ""
    ensures r.Ok? ==> r.value == DemandAnalysis(postalCode, metrics, calculatedAt)
    ensures r.Err? ==> r.error == "Postal code cannot be empty"
  {
    if postalCode == "" then Err("Postal code cannot be empty") else Ok(DemandAnalysis(postalCode, metrics, calculatedAt))
  }

  datatype HeatmapData = HeatmapData(postalCode: string, value: real, colorIntensity: real)

  /** `HeatmapData(...)`: a postal code, and an intensity in [0, 1]. */
  function MakeHeatmapData(postalCode: string, value: real, colorIntensity: real): (r: Result<HeatmapData, string>)
    ensures r.Ok? <==> postalCode != "" && 0.0 <= colorIntensity <= 1.0
    ensures r.Ok? ==> r.value == HeatmapData(postalCode, value, colorIntensity)
    ensures postalCode == "" ==> r == Err("Postal code cannot be empty")
    ensures postalCode != "" && !(0.0 <= colorIntensity <= 1.0) ==> r == Err("Color intensity must be between 0 and 1")
  {
    if postalCode == "" then Err("Postal code cannot be empty")
    else if !(0.0 <= colorIntensity <= 1.0) then Err("Color intensity must be between 0 and 1")
    else Ok(HeatmapData(postalCode, value, colorIntensity))
  }
}
