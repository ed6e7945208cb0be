/** The demographics domain service: population and density look-ups by
    postal code, a population-range filter and the total population, each
    over the list the demographic repository serves. */
module DemographicsServices {
  import opened Wrappers
  import opened Tables
  import opened Demographics
  import opened DemographicRepository

  /** `calculate_population_density`: population over area for the first
      area with the code, when that area has a positive area; `None`
      otherwise. Nothing is stored. */
  function DensityFor(areas: seq<DemographicArea>, postalCode: string): (r: Option<real>)
    reads set a | a in areas
    ensures r.Some? <==> FirstArea(areas, postalCode).Some? && PositiveArea(FirstArea(areas, postalCode).value.areaSqKm)
    ensures r.Some? ==>
      var a := FirstArea(areas, postalCode).value;
      r.value == a.Population() as real / a.areaSqKm.value
  {
    match FirstArea(areas, postalCode)
    case None => None
    case Some(a) =>
      if PositiveArea(a.areaSqKm) then Some(a.Population() as real / a.areaSqKm.value) else None
  }

  /** The density of a valid area is never negative. */
  lemma {:induction false} DensityNonNegative(areas: seq<DemographicArea>, postalCode: string)
    requires forall i :: 0 <= i < |areas| ==> areas[i].Valid()
    requires DensityFor(areas, postalCode).Some?
    ensures DensityFor(areas, postalCode).value >= 0.0
  {
    var a := FirstArea(areas, postalCode).value;
    var i :| 0 <= i < |areas| && areas[i] == a && areas[i].postalCode == postalCode;
    assert a.Valid();
  }

  /** The populations that are not zero, in order: the terms of
      `sum(area.population for area in areas if area.population)`. */
  function NonZeroPopulations(areas: seq<DemographicArea>): seq<int>
    reads set a | a in areas
  {
    if areas == [] then []
    else (if areas[0].Population() != 0 then [areas[0].Population()] else []) + NonZeroPopulations(areas[1..])
  }

  /** Leaving out the zero populations does not change the sum: the
      service's total is the repository's total. */
  lemma {:induction false} NonZeroTotalIsTotal(areas: seq<DemographicArea>)
    ensures SumInt(NonZeroPopulations(areas)) == TotalPopulation(areas)
  {
    if areas != [] {
      NonZeroTotalIsTotal(areas[1..]);
      var head := if areas[0].Population() != 0 then [areas[0].Population()] else [];
      SumIntAppend(head, NonZeroPopulations(areas[1..]));
      SumIntAppend([areas[0].Population()], Populations(areas[1..]));
      assert Populations(areas) == [areas[0].Population()] + Populations(areas[1..]);
      assert SumInt([areas[0].Population()]) == areas[0].Population() by {
        assert [areas[0].Population()][..0] == [];
      }
      assert SumInt(head) == areas[0].Population() by {
        if head == [] {
        } else {
          assert head[..0] == [];
        }
      }
    }
  }

  class DemographicsService {
    const repository: ExcelDemographicRepository

    constructor(repository: ExcelDemographicRepository)
      ensures this.repository == repository
    {
      this.repository := repository;
    }

    /** `get_population_for_postal_code`: the first area's population, or
        `None` when no area has the code. */
    method GetPopulationForPostalCode(postalCode: string) returns (r: Option<int>)
      modifies repository
      ensures repository.areas.Some? && r == PopulationOf(repository.areas.value, postalCode)
      ensures old(repository.areas).Some? ==> repository.areas == old(repository.areas)
    {
      var area := repository.GetByPostalCode(postalCode);
      r := if area.Some? then Some(area.value.Population()) else None;
    }

    /** `get_all_demographic_areas`. */
    method GetAllDemographicAreas() returns (r: seq<DemographicArea>)
      modifies repository
      ensures repository.areas == Some(r)
      ensures old(repository.areas).Some? ==> r == old(repository.areas).value
    {
      r := repository.LoadData();
    }

    /** `calculate_population_density`. */
    method CalculatePopulationDensity(postalCode: string) returns (r: Option<real>)
      modifies repository
      ensures repository.areas.Some? && r == DensityFor(repository.areas.value, postalCode)
      ensures old(repository.areas).Some? ==> repository.areas == old(repository.areas)
    {
      var area := repository.GetByPostalCode(postalCode);
      if area.Some? && PositiveArea(area.value.areaSqKm) {
        r := Some(area.value.Population() as real / area.value.areaSqKm.value);
      } else {
        r := None;
      }
    }

    /** `get_areas_by_population_range`: both bounds inclusive, in order. */
    method GetAreasByPopulationRange(minPop: int, maxPop: int) returns (r: seq<DemographicArea>)
      modifies repository
      ensures repository.areas.Some? && r == InPopulationRange(repository.areas.value, minPop, maxPop)
      ensures old(repository.areas).Some? ==> repository.areas == old(repository.areas)
    {
      var all := repository.LoadData();
      r := InPopulationRange(all, minPop, maxPop);
    }

    /** `get_total_population`: the sum of the non-zero populations, which
        is the repository's total. */
    method GetTotalPopulation() returns (total: int)
      modifies repository
      ensures repository.areas.Some? && total == TotalPopulation(repository.areas.value)
      ensures old(repository.areas).Some? ==> repository.areas == old(repository.areas)
    {
      var all := repository.LoadData();
      total := SumInt(NonZeroPopulations(all));
      NonZeroTotalIsTotal(all);
    }
  }
}
