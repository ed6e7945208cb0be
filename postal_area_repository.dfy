/** The shapefile postal-area repository: one `PostalArea` per shape row
    whose postal code, centroid and geometry validate, each with the
    population looked up by its postal code, built once and then served
    from the cache. */
module PostalAreaRepository {
  import opened Wrappers
  import opened Text
  import opened Cells
  import opened Tables
  import opened Dicts
  import opened Geography

  /** A shape row: the `PLZ` cell and the polygon. */
  datatype AreaRow = AreaRow(plz: Cell, geometry: Shape)

  /** One row through the loop body: `None` where a `ValueError` (centroid
      outside the coordinate ranges, empty postal code, geometry without a
      geo interface) makes the loop skip it. */
  function AreaOf(populationData: Dict<string, int>, row: AreaRow): Option<AreaRecord>
  {
    var postalCode := Strip(CellText(row.plz));
    var population := LookupRight(populationData, postalCode);
    match MakeCoordinate(row.geometry.centroidY, row.geometry.centroidX)
    case Err(_) => None
    case Ok(centroid) =>
      if postalCode == "" || !row.geometry.hasGeoInterface then None
      else Some(AreaRecord(postalCode, row.geometry, Some(centroid), population, None))
  }

  /** A row is kept exactly when its stripped postal code is non-empty, its
      geometry has a geo interface and its centroid is a valid coordinate;
      the area then has that centroid (`y` as latitude), the population
      recorded for its code and no cached area. */
  lemma {:induction false} AreaOfSpec(populationData: Dict<string, int>, row: AreaRow)
    ensures AreaOf(populationData, row).Some? <==>
      Strip(CellText(row.plz)) != "" && row.geometry.hasGeoInterface
      && -90.0 <= row.geometry.centroidY <= 90.0 && -180.0 <= row.geometry.centroidX <= 180.0
    ensures AreaOf(populationData, row).Some? ==>
      var a := AreaOf(populationData, row).value;
      && a.postalCode == Strip(CellText(row.plz)) && a.geometry == row.geometry
      && a.centroid == Some(Coordinate(row.geometry.centroidY, row.geometry.centroidX))
      && a.population == LookupRight(populationData, a.postalCode) && a.areaSqKm == None
  {
  }

  /** The population table is consulted only for codes it holds. */
  lemma {:induction false} PopulationOnlyForKnownCodes(populationData: Dict<string, int>, row: AreaRow)
    requires AreaOf(populationData, row).Some?
    ensures AreaOf(populationData, row).value.population.Some? <==>
      AreaOf(populationData, row).value.postalCode in Keys(populationData)
  {
    LookupKeys(populationData, AreaOf(populationData, row).value.postalCode);
  }

  /** The loop body with the population table fixed. */
  function AreaParser(populationData: Dict<string, int>): AreaRow -> Option<AreaRecord>
  {
    row => AreaOf(populationData, row)
  }

  /** The areas `_load_data` builds from the rows, as field values. */
  function LoadedAreas(populationData: Dict<string, int>, rows: seq<AreaRow>): seq<AreaRecord>
  {
    FilterMap(rows, AreaParser(populationData))
  }

  /** Every loaded area has a non-empty code, a geo interface and a
      centroid inside the coordinate ranges; no more areas than rows. */
  lemma {:induction false} LoadedAreasValid(populationData: Dict<string, int>, rows: seq<AreaRow>)
    ensures |LoadedAreas(populationData, rows)| <= |rows|
    ensures forall i :: 0 <= i < |LoadedAreas(populationData, rows)| ==>
      var a := LoadedAreas(populationData, rows)[i];
      && a.postalCode != "" && a.geometry.hasGeoInterface && a.centroid.Some?
      && -90.0 <= a.centroid.value.latitude <= 90.0 && -180.0 <= a.centroid.value.longitude <= 180.0
  {
    var f := AreaParser(populationData);
    FilterMapSpec(rows, f);
    var out := LoadedAreas(populationData, rows);
    forall i | 0 <= i < |out|
      ensures out[i].postalCode != "" && out[i].geometry.hasGeoInterface && out[i].centroid.Some?
      ensures -90.0 <= out[i].centroid.value.latitude <= 90.0 && -180.0 <= out[i].centroid.value.longitude <= 180.0
    {
      var j :| 0 <= j < |rows| && f(rows[j]) == Some(out[i]);
      AreaOfSpec(populationData, rows[j]);
    }
  }

  /** Every row that validates gives an area. */
  lemma {:induction false} LoadedAreasComplete(populationData: Dict<string, int>, rows: seq<AreaRow>)
    ensures forall j :: 0 <= j < |rows| && AreaOf(populationData, rows[j]).Some? ==>
      AreaOf(populationData, rows[j]).value in LoadedAreas(populationData, rows)
  {
    var f := AreaParser(populationData);
    FilterMapSpec(rows, f);
    forall j | 0 <= j < |rows| && AreaOf(populationData, rows[j]).Some?
      ensures AreaOf(populationData, rows[j]).value in LoadedAreas(populationData, rows)
    {
      assert f(rows[j]) == AreaOf(populationData, rows[j]);
    }
  }

  /** The loop of `_load_data` for any row parser whose areas pass the
      `PostalArea` checks: one new area per row the parser admits, in row
      order. */
  method BuildAreas(rows: seq<AreaRow>, parse: AreaRow -> Option<AreaRecord>) returns (r: seq<PostalArea>)
    requires forall row :: parse(row).Some? ==> parse(row).value.postalCode != "" && parse(row).value.geometry.hasGeoInterface
    ensures Records(r) == FilterMap(rows, parse)
    ensures forall i :: 0 <= i < |r| ==> fresh(r[i])
  {
    r := [];
    ghost var built: seq<AreaRecord> := [];
    var k := 0;
    while k < |rows|
      invariant 0 <= k <= |rows|
      invariant built == FilterMap(rows[..k], parse)
      invariant |r| == |built| && forall i :: 0 <= i < |r| ==> r[i].Record() == built[i]
      invariant forall i :: 0 <= i < |r| ==> fresh(r[i])
    {
      FilterMapStep(rows, parse, k);
      var parsed := parse(rows[k]);
      if parsed.Some? {
        var rec := parsed.value;
        var a := new PostalArea(rec.postalCode, rec.geometry, rec.centroid, rec.population, rec.areaSqKm);
        r := r + [a];
        built := built + [rec];
      }
      k := k + 1;
    }
    assert rows[..|rows|] == rows;
    assert Records(r) == built;
  }

  // ------------------------------------------------------------ queries

  /** The first area with the postal code (an exact string match); the
      same search as `DemographicRepository.FirstArea`, over postal areas. */
  function FirstWithCode(areas: seq<PostalArea>, postalCode: string): (r: Option<PostalArea>)
    reads set a | a in areas
    ensures r.Some? ==> exists i :: 0 <= i < |areas| && areas[i] == r.value && areas[i].postalCode == postalCode
                                   && forall k :: 0 <= k < i ==> areas[k].postalCode != postalCode
    ensures r.None? ==> forall i :: 0 <= i < |areas| ==> areas[i].postalCode != postalCode
  {
    if areas == [] then None
    else if areas[0].postalCode == postalCode then Some(areas[0])
    else
      var rest := FirstWithCode(areas[1..], postalCode);
      assert forall i :: 1 <= i < |areas| ==> areas[i] == areas[1..][i - 1];
      rest
  }

  /** The areas whose postal code lies between the bounds in string order,
      both inclusive, in order. */
  function InCodeRange(areas: seq<PostalArea>, minCode: string, maxCode: string): (r: seq<PostalArea>)
    reads set a | a in areas
    ensures |r| <= |areas|
    ensures forall i :: 0 <= i < |r| ==> r[i] in areas && LexLessEq(minCode, r[i].postalCode) && LexLessEq(r[i].postalCode, maxCode)
    ensures forall i :: 0 <= i < |areas| && LexLessEq(minCode, areas[i].postalCode) && LexLessEq(areas[i].postalCode, maxCode) ==>
      areas[i] in r
  {
    if areas == [] then []
    else
      var rest := InCodeRange(areas[1..], minCode, maxCode);
      assert forall i :: 1 <= i < |areas| ==> areas[i] == areas[1..][i - 1];
      if LexLessEq(minCode, areas[0].postalCode) && LexLessEq(areas[0].postalCode, maxCode) then [areas[0]] + rest else rest
  }

  /** On five-digit codes and bounds, the string range is the numeric range. */
  lemma {:induction false} CodeRangeIsNumeric(minCode: string, code: string, maxCode: string)
    requires |minCode| == |code| == |maxCode| == 5 && AllDigits(minCode) && AllDigits(code) && AllDigits(maxCode)
    ensures LexLessEq(minCode, code) && LexLessEq(code, maxCode) <==>
      DigitsValue(minCode) <= DigitsValue(code) <= DigitsValue(maxCode)
  {
    LexLessDigits(minCode, code);
    LexLessDigits(code, minCode);
    LexLessTotal(minCode, code);
    LexLessDigits(code, maxCode);
    LexLessDigits(maxCode, code);
    LexLessTotal(code, maxCode);
  }

  /** The first area containing the point. */
  function FirstContaining(areas: seq<PostalArea>, contains: Contains, point: Coordinate): (r: Option<PostalArea>)
    reads set a | a in areas
    ensures r.Some? ==> exists i :: 0 <= i < |areas| && areas[i] == r.value && contains(areas[i].geometry, point)
                                   && forall k :: 0 <= k < i ==> !contains(areas[k].geometry, point)
    ensures r.None? ==> forall i :: 0 <= i < |areas| ==> !contains(areas[i].geometry, point)
  {
    if areas == [] then None
    else if contains(areas[0].geometry, point) then Some(areas[0])
    else
      var rest := FirstContaining(areas[1..], contains, point);
      assert forall i :: 1 <= i < |areas| ==> areas[i] == areas[1..][i - 1];
      rest
  }

  /** `get_centroid_for_postal_code`: the centroid of the first area with
      the code, when that area has one. */
  function CentroidFor(areas: seq<PostalArea>, postalCode: string): (r: Option<Coordinate>)
    reads set a | a in areas
    ensures r.Some? <==> FirstWithCode(areas, postalCode).Some? && FirstWithCode(areas, postalCode).value.centroid.Some?
    ensures r.Some? ==> r == FirstWithCode(areas, postalCode).value.centroid
  {
    match FirstWithCode(areas, postalCode)
    case None => None
    case Some(area) => area.centroid
  }

  class ShapefilePostalAreaRepository {
    const rows: seq<AreaRow>
    const populationData: Dict<string, int>
    var areas: Option<seq<PostalArea>>

    /** `population_data or {}`: a missing table is an empty one. */
    constructor(rows: seq<AreaRow>, populationData: Option<Dict<string, int>>)
      ensures this.rows == rows && this.populationData == populationData.GetOr([]) && areas == None
    {
      this.rows := rows;
      this.populationData := populationData.GetOr([]);
      areas := None;
    }

    /** `_load_data`, which is also `get_all`: the cached list when there
        is one; otherwise one new area per row that validates, which is
        cached. */
    method LoadData() returns (r: seq<PostalArea>)
      modifies this
      ensures areas == Some(r)
      ensures old(areas).Some? ==> r == old(areas).value
      ensures old(areas).None? ==> Records(r) == LoadedAreas(populationData, rows)
      ensures old(areas).None? ==> forall i :: 0 <= i < |r| ==> fresh(r[i])
    {
      if areas.Some? {
        return areas.value;
      }
      var parse := AreaParser(populationData);
      forall row | parse(row).Some?
        ensures parse(row).value.postalCode != "" && parse(row).value.geometry.hasGeoInterface
      {
        AreaOfSpec(populationData, row);
      }
      r := BuildAreas(rows, parse);
      areas := Some(r);
    }

    /** `get_by_postal_code`. */
    method GetByPostalCode(postalCode: string) returns (r: Option<PostalArea>)
      modifies this
      ensures areas.Some? && r == FirstWithCode(areas.value, postalCode)
      ensures old(areas).Some? ==> areas == old(areas)
      ensures old(areas).None? ==> Records(areas.value) == LoadedAreas(populationData, rows)
    {
      var all := LoadData();
      r := FirstWithCode(all, postalCode);
    }

    /** `get_postal_codes_in_range`: both bounds inclusive, in string order. */
    method GetPostalCodesInRange(minCode: string, maxCode: string) returns (r: seq<PostalArea>)
      modifies this
      ensures areas.Some? && r == InCodeRange(areas.value, minCode, maxCode)
      ensures old(areas).Some? ==> areas == old(areas)
      ensures old(areas).None? ==> Records(areas.value) == LoadedAreas(populationData, rows)
    {
      var all := LoadData();
      r := InCodeRange(all, minCode, maxCode);
    }

    /** `find_postal_area_for_coordinate`: the first area containing it. */
    method FindPostalAreaForCoordinate(contains: Contains, point: Coordinate) returns (r: Option<PostalArea>)
      modifies this
      ensures areas.Some? && r == FirstContaining(areas.value, contains, point)
      ensures old(areas).Some? ==> areas == old(areas)
      ensures old(areas).None? ==> Records(areas.value) == LoadedAreas(populationData, rows)
    {
      var all := LoadData();
      r := FirstContaining(all, contains, point);
    }

    /** `get_centroid_for_postal_code`. */
    method GetCentroidForPostalCode(postalCode: string) returns (r: Option<Coordinate>)
      modifies this
      ensures areas.Some? && r == CentroidFor(areas.value, postalCode)
      ensures old(areas).Some? ==> areas == old(areas)
      ensures old(areas).None? ==> Records(areas.value) == LoadedAreas(populationData, rows)
    {
      var area := GetByPostalCode(postalCode);
      if area.Some? && area.value.centroid.Some? {
        r := area.value.centroid;
      } else {
        r := None;
      }
    }
  }
}
