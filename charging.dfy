/** Charging infrastructure entities: the `Location` and `Capacity` value
    objects with their validation, and the `ChargingStation` entity whose
    location and capacity can be replaced. A validation that raises
    `ValueError` becomes `Err` carrying the message. */
module Charging {
  import opened Wrappers
  import opened Clock

  datatype Location = Location(latitude: real, longitude: real)

  predicate ValidLocation(l: Location) {
    -90.0 <= l.latitude <= 90.0 && -180.0 <= l.longitude <= 180.0
  }

  const LatitudeRange := "Latitude must be between -90 and 90"
  const LongitudeRange := "Longitude must be between -180 and 180"

  /** `Location(latitude, longitude)`: the latitude is checked first. */
  function MakeLocation(latitude: real, longitude: real): (r: Result<Location, string>)
    ensures r.Ok? <==> ValidLocation(Location(latitude, longitude))
    ensures r.Ok? ==> r.value == Location(latitude, longitude)
    ensures !(-90.0 <= latitude <= 90.0) ==> r == Err(LatitudeRange)
    ensures -90.0 <= latitude <= 90.0 && !(-180.0 <= longitude <= 180.0) ==> r == Err(LongitudeRange)
  {
    if !(-90.0 <= latitude <= 90.0) then Err(LatitudeRange)
    else if !(-180.0 <= longitude <= 180.0) then Err(LongitudeRange)
    else Ok(Location(latitude, longitude))
  }

  datatype Capacity = Capacity(powerKw: real, connectorType: string)

  /** `Capacity(power_kw, connector_type)`: the power must be positive. */
  function MakeCapacity(powerKw: real, connectorType: string): (r: Result<Capacity, string>)
    ensures r.Ok? <==> powerKw > 0.0
    ensures r.Ok? ==> r.value == Capacity(powerKw, connectorType)
    ensures r.Err? ==> r.error == "Power must be positive"
  {
    if powerKw <= 0.0 then Err("Power must be positive") else Ok(Capacity(powerKw, connectorType))
  }

  /** The field values of a station. */
  datatype StationRecord = StationRecord(
    stationId: string, location: Location, capacity: Capacity, postalCode: string,
    address: Option<string>, operator: Option<string>, lastUpdated: Option<Moment>)

  class ChargingStation {
    var stationId: string
    var location: Location
    var capacity: Capacity
    var postalCode: string
    var address: Option<string>
    var operator: Option<string>
    var lastUpdated: Option<Moment>

    predicate Valid()
      reads this
    {
      stationId != "" && postalCode != ""
    }

    /** The constructor past its checks: identifier and postal code are
        non-empty. */
    constructor(stationId: string, location: Location, capacity: Capacity, postalCode: string,
                address: Option<string>, operator: Option<string>, lastUpdated: Option<Moment>)
      requires stationId != "" && postalCode != ""
      ensures Valid()
      ensures this.stationId == stationId && this.location == location && this.capacity == capacity
      ensures this.postalCode == postalCode && this.address == address && this.operator == operator
      ensures this.lastUpdated == lastUpdated
    {
      this.stationId := stationId;
      this.location := location;
      this.capacity := capacity;
      this.postalCode := postalCode;
      this.address := address;
      this.operator := operator;
      this.lastUpdated := lastUpdated;
    }

    function Record(): StationRecord
      reads this
    {
      StationRecord(stationId, location, capacity, postalCode, address, operator, lastUpdated)
    }

    /** `update_location`: the location and the update time change, nothing else. */
    method UpdateLocation(newLocation: Location, now: Moment)
      modifies this
      ensures location == newLocation && lastUpdated == Some(now)
      ensures stationId == old(stationId) && capacity == old(capacity) && postalCode == old(postalCode)
      ensures address == old(address) && operator == old(operator)
    {
      location := newLocation;
      lastUpdated := Some(now);
    }

    /** `update_capacity`: the capacity and the update time change, nothing else. */
    method UpdateCapacity(newCapacity: Capacity, now: Moment)
      modifies this
      ensures capacity == newCapacity && lastUpdated == Some(now)
      ensures stationId == old(stationId) && location == old(location) && postalCode == old(postalCode)
      ensures address == old(address) && operator == old(operator)
    {
      capacity := newCapacity;
      lastUpdated := Some(now);
    }
  }

  /** `ChargingStation(...)` with its checks: an empty identifier, then an
      empty postal code, raise. */
  method NewChargingStation(stationId: string, location: Location, capacity: Capacity, postalCode: string,
                            address: Option<string>, operator: Option<string>, lastUpdated: Option<Moment>)
    returns (r: Result<ChargingStation, string>)
    ensures r.Ok? <==> stationId != "" && postalCode != ""
    ensures stationId == "" ==> r == Err("Station ID cannot be empty")
    ensures stationId != "" && postalCode == "" ==> r == Err("Postal code cannot be empty")
    ensures r.Ok? ==> fresh(r.value) && r.value.Valid()
    ensures r.Ok? ==> r.value.stationId == stationId && r.value.location == location && r.value.capacity == capacity
    ensures r.Ok? ==> r.value.postalCode == postalCode && r.value.address == address && r.value.operator == operator
    ensures r.Ok? ==> r.value.lastUpdated == lastUpdated
  {
    if stationId == "" {
      return Err("Station ID cannot be empty");
    }
    if postalCode == "" {
      return Err("Postal code cannot be empty");
    }
    var s := new ChargingStation(stationId, location, capacity, postalCode, address, operator, lastUpdated);
    return Ok(s);
  }

  /** The field values of a list of stations, in order; each class of the
      model has a `Records` function of this shape over its own objects. */
  function Records(stations: seq<ChargingStation>): (r: seq<StationRecord>)
    reads set s | s in stations
    ensures |r| == |stations| && forall i :: 0 <= i < |stations| ==> r[i] == stations[i].Record()
  {
    if stations == [] then [] else [stations[0].Record()] + Records(stations[1..])
  }

  /** The postal codes of a list of stations, in order. Each entity list
      has a projection of this shape (`DemographicRepository.Codes`,
      `AnalyticsServices.AnalysisCodes`), written per element type. */
  function Codes(stations: seq<ChargingStation>): (r: seq<string>)
    reads set s | s in stations
    ensures |r| == |stations| && forall i :: 0 <= i < |stations| ==> r[i] == stations[i].postalCode
  {
    if stations == [] then [] else [stations[0].postalCode] + Codes(stations[1..])
  }

  /** Each station's postal code with its power, in order. */
  function CodesAndPowers(stations: seq<ChargingStation>): (r: seq<(string, real)>)
    reads set s | s in stations
    ensures |r| == |stations|
    ensures forall i :: 0 <= i < |stations| ==> r[i] == (stations[i].postalCode, stations[i].capacity.powerKw)
  {
    if stations == [] then [] else [(stations[0].postalCode, stations[0].capacity.powerKw)] + CodesAndPowers(stations[1..])
  }

  /** The stations with a given postal code, in order (an exact string match). */
  function AtPostalCode(stations: seq<ChargingStation>, postalCode: string): (r: seq<ChargingStation>)
    reads set s | s in stations
    ensures |r| <= |stations|
    ensures forall i :: 0 <= i < |r| ==> r[i] in stations && r[i].postalCode == postalCode
    ensures forall i :: 0 <= i < |stations| && stations[i].postalCode == postalCode ==> stations[i] in r
  {
    if stations == [] then []
    else
      var rest := AtPostalCode(stations[1..], postalCode);
      assert forall i :: 1 <= i < |stations| ==> stations[i] == stations[1..][i - 1];
      if stations[0].postalCode == postalCode then [stations[0]] + rest else rest
  }
}
