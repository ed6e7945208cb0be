/** Geographic entities: the `Coordinate` value object and the `PostalArea`
    entity. The shape a postal area carries is a `Shape`: the values the
    geometry library would report for it (centroid, planar area, whether it
    offers `__geo_interface__`). Point-in-polygon is a parameter. */
module Geography {
  import opened Wrappers
  import Charging

  datatype Coordinate = Coordinate(latitude: real, longitude: real)

  /** `Coordinate(latitude, longitude)`: the latitude is checked first. */
  function MakeCoordinate(latitude: real, longitude: real): (r: Result<Coordinate, string>)
    ensures r.Ok? <==> -90.0 <= latitude <= 90.0 && -180.0 <= longitude <= 180.0
    ensures r.Ok? ==> r.value == Coordinate(latitude, longitude)
  {
    if !(-90.0 <= latitude <= 90.0) then Err("Latitude must be between -90 and 90")
    else if !(-180.0 <= longitude <= 180.0) then Err("Longitude must be between -180 and 180")
    else Ok(Coordinate(latitude, longitude))
  }

  /** The geography coordinate and the charging location accept and reject
      the same values with the same messages. */
  lemma {:induction false} CoordinateAgreesWithLocation(latitude: real, longitude: real)
    ensures MakeCoordinate(latitude, longitude).Ok? == Charging.MakeLocation(latitude, longitude).Ok?
    ensures MakeCoordinate(latitude, longitude).Err? ==>
      MakeCoordinate(latitude, longitude).error == Charging.MakeLocation(latitude, longitude).error
  {
  }

  /** What the geometry library reports about a polygon. */
  datatype Shape = Shape(centroidX: real, centroidY: real, planarArea: real, hasGeoInterface: bool)

  /** Point-in-polygon, as the geometry library decides it. */
  type Contains = (Shape, Coordinate) -> bool

  /** The field values of a postal area. */
  datatype AreaRecord = AreaRecord(postalCode: string, geometry: Shape, centroid: Option<Coordinate>,
                                   population: Option<int>, areaSqKm: Option<real>)

  class PostalArea {
    var postalCode: string
    var geometry: Shape
    var centroid: Option<Coordinate>
    var population: Option<int>
    var areaSqKm: Option<real>

    predicate Valid()
      reads this
    {
      postalCode != "" && geometry.hasGeoInterface
    }

    /** The constructor past its checks. */
    constructor(postalCode: string, geometry: Shape, centroid: Option<Coordinate>, population: Option<int>, areaSqKm: Option<real>)
      requires postalCode != "" && geometry.hasGeoInterface
      ensures Valid()
      ensures this.postalCode == postalCode && this.geometry == geometry && this.centroid == centroid
      ensures this.population == population && this.areaSqKm == areaSqKm
    {
      this.postalCode := postalCode;
      this.geometry := geometry;
      this.centroid := centroid;
      this.population := population;
      this.areaSqKm := areaSqKm;
    }

    function Record(): AreaRecord
      reads this
    {
      AreaRecord(postalCode, geometry, centroid, population, areaSqKm)
    }

    /** `calculate_centroid`: the geometry's centroid with `y` as latitude
        and `x` as longitude, validated as a coordinate. */
    function CalculateCentroid(): (r: Result<Coordinate, string>)
      reads this
      ensures r.Ok? <==> -90.0 <= geometry.centroidY <= 90.0 && -180.0 <= geometry.centroidX <= 180.0
      ensures r.Ok? ==> r.value.latitude == geometry.centroidY && r.value.longitude == geometry.centroidX
    {
      MakeCoordinate(geometry.centroidY, geometry.centroidX)
    }

    /** `contains_point`. */
    function ContainsPoint(contains: Contains, point: Coordinate): bool
      reads this
    {
      contains(geometry, point)
    }

    /** `get_area`: the cached area when there is one; otherwise the planar
        area in square kilometres, which is then cached. */
    method GetArea() returns (area: real)
      modifies this
      ensures old(areaSqKm).Some? ==> area == old(areaSqKm).value
      ensures old(areaSqKm).None? ==> area == geometry.planarArea / 1000000.0
      ensures areaSqKm == Some(area)
      ensures postalCode == old(postalCode) && geometry == old(geometry) && centroid == old(centroid)
      ensures population == old(population)
    {
      if areaSqKm.Some? {
        return areaSqKm.value;
      }
      areaSqKm := Some(geometry.planarArea / 1000000.0);
      area := areaSqKm.value;
    }
  }

  /** Asking for the area twice gives the same value, and the second call
      changes nothing. */
  method GetAreaTwice(a: PostalArea) returns (first: real, second: real)
    modifies a
    ensures first == second && a.areaSqKm == Some(first)
  {
    first := a.GetArea();
    second := a.GetArea();
  }

  /** `PostalArea(...)` with its checks: the postal code first, then the
      geometry. */
  method NewPostalArea(postalCode: string, geometry: Shape, centroid: Option<Coordinate>, population: Option<int>, areaSqKm: Option<real>)
    returns (r: Result<PostalArea, string>)
    ensures r.Ok? <==> postalCode != "" && geometry.hasGeoInterface
    ensures postalCode == "" ==> r == Err("Postal code cannot be empty")
    ensures postalCode != "" && !geometry.hasGeoInterface ==> r == Err("Geometry must be a valid GeoPandas geometry object")
    ensures r.Ok? ==> fresh(r.value) && r.value.postalCode == postalCode && r.value.geometry == geometry
    ensures r.Ok? ==> r.value.centroid == centroid && r.value.population == population && r.value.areaSqKm == areaSqKm
  {
    if postalCode == "" {
      return Err("Postal code cannot be empty");
    }
    if !geometry.hasGeoInterface {
      return Err("Geometry must be a valid GeoPandas geometry object");
    }
    var a := new PostalArea(postalCode, geometry, centroid, population, areaSqKm);
    return Ok(a);
  }

  /** The field values of a list of areas, in order; the same shape as
      `Charging.Records`, over postal areas. */
  function Records(areas: seq<PostalArea>): (r: seq<AreaRecord>)
    reads set a | a in areas
    ensures |r| == |areas| && forall i :: 0 <= i < |areas| ==> r[i] == areas[i].Record()
  {
    if areas == [] then [] else [areas[0].Record()] + Records(areas[1..])
  }
}
