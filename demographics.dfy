/** Demographic entities: the `PopulationData` value object and the
    `DemographicArea` entity, whose density is computed from its area and
    written back into its population data. */
module Demographics {
  import opened Wrappers

  datatype PopulationData = PopulationData(totalPopulation: int, populationDensity: Option<real>)

  /** `PopulationData(total_population, population_density)`: a negative
      total raises. */
  function MakePopulationData(totalPopulation: int, populationDensity: Option<real>): (r: Result<PopulationData, string>)
    ensures r.Ok? <==> totalPopulation >= 0
    ensures r.Ok? ==> r.value == PopulationData(totalPopulation, populationDensity)
    ensures r.Err? ==> r.error == "Population cannot be negative"
  {
    if totalPopulation < 0 then Err("Population cannot be negative")
    else Ok(PopulationData(totalPopulation, populationDensity))
  }

  /** Python's truth value of an optional area: `None` and `0.0` are false. */
  predicate PositiveArea(areaSqKm: Option<real>) {
    areaSqKm.Some? && areaSqKm.value > 0.0
  }

  /** The field values of a demographic area. */
  datatype DemographicRecord = DemographicRecord(postalCode: string, populationData: PopulationData, areaSqKm: Option<real>)

  class DemographicArea {
    var postalCode: string
    var populationData: PopulationData
    var areaSqKm: Option<real>

    predicate Valid()
      reads this
    {
      postalCode != "" && populationData.totalPopulation >= 0
    }

    /** The constructor past its check: the postal code is non-empty, and
        the population data, built through `MakePopulationData`, carry a
        non-negative total. */
    constructor(postalCode: string, populationData: PopulationData, areaSqKm: Option<real>)
      requires postalCode != "" && populationData.totalPopulation >= 0
      ensures this.postalCode == postalCode && this.populationData == populationData && this.areaSqKm == areaSqKm
      ensures Valid()
    {
      this.postalCode := postalCode;
      this.populationData := populationData;
      this.areaSqKm := areaSqKm;
    }

    function Record(): DemographicRecord
      reads this
    {
      DemographicRecord(postalCode, populationData, areaSqKm)
    }

    /** The `population` property. */
    function Population(): int
      reads this
    {
      populationData.totalPopulation
    }

    /** The `density` property: the stored density, `None` until computed. */
    function Density(): Option<real>
      reads this
    {
      populationData.populationDensity
    }

    /** `calculate_population_density`: with a positive area the density is
        population over area and is stored into the population data;
        otherwise the result is `None` and nothing changes. */
    method CalculatePopulationDensity() returns (density: Option<real>)
      modifies this
      ensures PositiveArea(areaSqKm) ==> density == Some(old(Population()) as real / areaSqKm.value)
      ensures !PositiveArea(areaSqKm) ==> density == None
      ensures Density() == if density.Some? then density else old(Density())
      ensures Population() == old(Population())
      ensures postalCode == old(postalCode) && areaSqKm == old(areaSqKm)
      ensures old(Valid()) ==> Valid()
      ensures old(Valid()) ==> density.Some? ==> density.value >= 0.0
    {
      if PositiveArea(areaSqKm) {
        var d := populationData.totalPopulation as real / areaSqKm.value;
        populationData := populationData.(populationDensity := Some(d));
        density := Some(d);
      } else {
        density := None;
      }
    }
  }

  /** `DemographicArea(...)` with its check. */
  method NewDemographicArea(postalCode: string, populationData: PopulationData, areaSqKm: Option<real>)
    returns (r: Result<DemographicArea, string>)
    requires populationData.totalPopulation >= 0
    ensures r.Ok? <==> postalCode != ""
    ensures r.Ok? ==> r.value.Valid()
    ensures r.Err? ==> r.error == "Postal code cannot be empty"
    ensures r.Ok? ==> fresh(r.value) && r.value.postalCode == postalCode
    ensures r.Ok? ==> r.value.populationData == populationData && r.value.areaSqKm == areaSqKm
  {
    if postalCode == "" {
      return Err("Postal code cannot be empty");
    }
    var a := new DemographicArea(postalCode, populationData, areaSqKm);
    return Ok(a);
  }

  /** The field values of a list of areas, in order; the same shape as
      `Charging.Records`, over demographic areas. */
  function Records(areas: seq<DemographicArea>): (r: seq<DemographicRecord>)
    reads set a | a in areas
    ensures |r| == |areas| && forall i :: 0 <= i < |areas| ==> r[i] == areas[i].Record()
  {
    if areas == [] then [] else [areas[0].Record()] + Records(areas[1..])
  }
}
