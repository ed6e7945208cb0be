/** The CSV station repository: registry rows whose postal code looks like
    a Berlin one become `ChargingStation`s, rows that fail to parse or
    validate are skipped, and the list is built once and then served from
    the cache. */
module StationRepository {
  import opened Wrappers
  import opened Text
  import opened Cells
  import opened Charging
  import StationPipeline
  import opened Tables

  /** A registry row as read with the header on line 10: identifier, postal
      code, latitude, longitude, rated power, first connector type (`None`
      when the column is absent), street, house number and operator. */
  datatype RegistryRecord = RegistryRecord(
    stationId: Cell, plz: Cell, lat: Cell, lon: Cell, power: Cell,
    connector: Option<string>, street: Cell, houseNumber: Cell, operator: Cell)

  // ------------------------------------------------------------ row filter

  predicate FiveDigitBerlinCode(t: string) {
    |t| == 5 && t[0] == '1' && '0' <= t[1] <= '4' && IsDigit(t[2]) && IsDigit(t[3]) && IsDigit(t[4])
  }

  /** `str.match(r'^1[0-4]\d{3}$')`: `$` also matches before a final newline. */
  predicate MatchesBerlinPattern(s: string) {
    FiveDigitBerlinCode(s) || (|s| == 6 && s[5] == '\n' && FiveDigitBerlinCode(s[..5]))
  }

  /** On five-digit strings the pattern is the numeric range 10000..14999. */
  lemma {:induction false} BerlinPatternRange(t: string)
    requires |t| == 5 && AllDigits(t)
    ensures FiveDigitBerlinCode(t) <==> 10000 <= DigitsValue(t) <= 14999
  {
    DigitsValueHead(t);
    DigitsValueHead(t[1..]);
    DigitsValueBound(t[2..]);
    assert t[1..][1..] == t[2..];
    assert Pow10(4) == 10000 && Pow10(3) == 1000;
  }

  /** A postal-code column read as floats prints `10115.0`, which the
      pattern never matches, so such a registry yields no stations. */
  lemma {:induction false} FloatCodesNeverMatch(w: int)
    ensures !MatchesBerlinPattern(CellText(FloatCell(w)))
  {
    var s := CellText(FloatCell(w));
    assert s[|s| - 2] == '.' && s[|s| - 1] == '0';
    if |s| == 6 {
      assert s[..5][3] == s[3];
    }
  }

  // ------------------------------------------------------------ row parsing

  /** `float(s)` on text, in plain decimal notation. */
  function FloatOf(s: string): Option<real>
  {
    ParseDecimal(Strip(s))
  }

  /** `float(cell) if pd.notna(cell) else 0.0`. */
  function PowerOf(c: Cell): Option<real>
  {
    match c
    case IntCell(i) => Some(i as real)
    case FloatCell(w) => Some(w as real)
    case TextCell(t) => FloatOf(t)
    case EmptyCell => Some(0.0)
  }

  /** The street and house number joined by `", "`, whichever are present. */
  function AddressOf(street: Cell, houseNumber: Cell): (r: Option<string>)
    ensures r.None? <==> street.EmptyCell? && houseNumber.EmptyCell?
  {
    var parts := (if street.EmptyCell? then [] else [CellText(street)])
      + (if houseNumber.EmptyCell? then [] else [CellText(houseNumber)]);
    if |parts| == 0 then None
    else if |parts| == 1 then Some(parts[0])
    else Some(parts[0] + ", " + parts[1])
  }

  function OperatorOf(c: Cell): Option<string>
  {
    if c.EmptyCell? then None else Some(CellText(c))
  }

  /** One row through the loop body: `None` where a `ValueError` (bad
      number, out-of-range coordinate, non-positive power, empty identifier
      or postal code) makes the loop skip it. */
  function ParseRecord(r: RegistryRecord): Option<StationRecord>
  {
    var lat := FloatOf(StationPipeline.DecimalPoint(r.lat));
    var lon := FloatOf(StationPipeline.DecimalPoint(r.lon));
    if lat.None? || lon.None? then None
    else
      match MakeLocation(lat.value, lon.value)
      case Err(_) => None
      case Ok(location) =>
        match PowerOf(r.power)
        case None => None
        case Some(power) =>
          match MakeCapacity(power, r.connector.GetOr("Unknown"))
          case Err(_) => None
          case Ok(capacity) =>
            var id := CellText(r.stationId);
            var postalCode := CellText(r.plz);
            if id == "" || postalCode == "" then None
            else Some(StationRecord(id, location, capacity, postalCode,
                                    AddressOf(r.street, r.houseNumber), OperatorOf(r.operator), None))
  }

  /** A parsed row has a valid location, positive power, the row's printed
      identifier and postal code, and has never been updated. */
  lemma {:induction false} ParseRecordSound(r: RegistryRecord)
    requires ParseRecord(r).Some?
    ensures var s := ParseRecord(r).value;
      && ValidLocation(s.location) && s.capacity.powerKw > 0.0
      && s.stationId == CellText(r.stationId) && s.postalCode == CellText(r.plz)
      && s.address == AddressOf(r.street, r.houseNumber) && s.operator == OperatorOf(r.operator)
      && s.lastUpdated == None
  {
  }

  /** A row without a rated power gets 0.0, which `Capacity` rejects. */
  lemma {:induction false} MissingPowerSkipped(r: RegistryRecord)
    requires r.power == EmptyCell
    ensures ParseRecord(r) == None
  {
  }

  /** A latitude outside [-90, 90] makes the row be skipped. */
  lemma {:induction false} BadLatitudeSkipped(r: RegistryRecord)
    requires FloatOf(StationPipeline.DecimalPoint(r.lat)).Some?
    requires !(-90.0 <= FloatOf(StationPipeline.DecimalPoint(r.lat)).value <= 90.0)
    ensures ParseRecord(r) == None
  {
  }

  /** The loop body on one row: the station it yields, if any. */
  function Admit(r: RegistryRecord): Option<StationRecord>
  {
    if MatchesBerlinPattern(CellText(r.plz)) then ParseRecord(r) else None
  }

  /** The stations `_load_data` builds from the rows, as field values. */
  function LoadedRecords(rows: seq<RegistryRecord>): seq<StationRecord>
  {
    FilterMap(rows, Admit)
  }

  /** A row the loop body admits matches the pattern and parses to the
      station it yields. */
  lemma {:induction false} AdmitSound(r: RegistryRecord)
    requires Admit(r).Some?
    ensures MatchesBerlinPattern(CellText(r.plz)) && Admit(r) == ParseRecord(r)
    ensures var s := Admit(r).value;
      && MatchesBerlinPattern(s.postalCode) && ValidLocation(s.location) && s.capacity.powerKw > 0.0
      && s.stationId != "" && s.postalCode != ""
  {
    ParseRecordSound(r);
  }

  /** Every loaded station carries a postal code matching the pattern, a
      valid location and a positive power. */
  lemma {:induction false} LoadedRecordsValid(rows: seq<RegistryRecord>)
    ensures |LoadedRecords(rows)| <= |rows|
    ensures forall i :: 0 <= i < |LoadedRecords(rows)| ==>
      MatchesBerlinPattern(LoadedRecords(rows)[i].postalCode)
      && ValidLocation(LoadedRecords(rows)[i].location) && LoadedRecords(rows)[i].capacity.powerKw > 0.0
  {
    FilterMapSpec(rows, Admit);
    var out := LoadedRecords(rows);
    forall i | 0 <= i < |out|
      ensures MatchesBerlinPattern(out[i].postalCode) && ValidLocation(out[i].location) && out[i].capacity.powerKw > 0.0
    {
      var j :| 0 <= j < |rows| && Admit(rows[j]) == Some(out[i]);
      AdmitSound(rows[j]);
    }
  }

  /** Some row with a postal code matching the pattern parses to `s`. */
  predicate ParsedFromRow(rows: seq<RegistryRecord>, s: StationRecord) {
    exists j :: 0 <= j < |rows| && MatchesBerlinPattern(CellText(rows[j].plz)) && ParseRecord(rows[j]) == Some(s)
  }

  /** Every loaded station is what some row with a matching postal code
      parses to. */
  lemma {:induction false} LoadedRecordsFromRows(rows: seq<RegistryRecord>)
    ensures forall i :: 0 <= i < |LoadedRecords(rows)| ==> ParsedFromRow(rows, LoadedRecords(rows)[i])
  {
    FilterMapSpec(rows, Admit);
    forall i | 0 <= i < |LoadedRecords(rows)|
      ensures ParsedFromRow(rows, LoadedRecords(rows)[i])
    {
      var j :| 0 <= j < |rows| && Admit(rows[j]) == Some(LoadedRecords(rows)[i]);
      AdmitSound(rows[j]);
    }
  }

  /** Every row with a matching postal code that parses gives a station. */
  lemma {:induction false} LoadedRecordsComplete(rows: seq<RegistryRecord>)
    ensures forall j :: 0 <= j < |rows| && MatchesBerlinPattern(CellText(rows[j].plz)) && ParseRecord(rows[j]).Some? ==>
      ParseRecord(rows[j]).value in LoadedRecords(rows)
  {
    FilterMapSpec(rows, Admit);
    forall j | 0 <= j < |rows| && MatchesBerlinPattern(CellText(rows[j].plz)) && ParseRecord(rows[j]).Some?
      ensures ParseRecord(rows[j]).value in LoadedRecords(rows)
    {
      assert Admit(rows[j]) == ParseRecord(rows[j]);
    }
  }

  /** The loop of `_load_data` for any row parser whose stations have an
      identifier and a postal code: one new station per row the parser
      admits, in row order. */
  method BuildStations(rows: seq<RegistryRecord>, parse: RegistryRecord -> Option<StationRecord>)
    returns (r: seq<ChargingStation>)
    requires forall row :: parse(row).Some? ==> parse(row).value.stationId != "" && parse(row).value.postalCode != ""
    ensures Records(r) == FilterMap(rows, parse)
    ensures forall i :: 0 <= i < |r| ==> fresh(r[i])
  {
    r := [];
    ghost var built: seq<StationRecord> := [];
    var k := 0;
    while k < |rows|
      invariant 0 <= k <= |rows|
      invariant built == FilterMap(rows[..k], parse)
      invariant |r| == |built| && forall i :: 0 <= i < |r| ==> r[i].Record() == built[i]
      invariant forall i :: 0 <= i < |r| ==> fresh(r[i])
    {
      FilterMapStep(rows, parse, k);
      var parsed := parse(rows[k]);
      if parsed.Some? {
        var rec := parsed.value;
        var s := new ChargingStation(rec.stationId, rec.location, rec.capacity, rec.postalCode,
                                     rec.address, rec.operator, rec.lastUpdated);
        r := r + [s];
        built := built + [rec];
      }
      k := k + 1;
    }
    assert rows[..|rows|] == rows;
    assert Records(r) == built;
  }

  // ------------------------------------------------------------ queries

  /** The first station with the identifier, as `next(..., None)` finds it. */
  function FirstWithId(stations: seq<ChargingStation>, id: string): (r: Option<ChargingStation>)
    reads set s | s in stations
    ensures r.Some? ==> exists i :: 0 <= i < |stations| && stations[i] == r.value && stations[i].stationId == id
                                   && forall k :: 0 <= k < i ==> stations[k].stationId != id
    ensures r.None? ==> forall i :: 0 <= i < |stations| ==> stations[i].stationId != id
  {
    if stations == [] then None
    else if stations[0].stationId == id then Some(stations[0])
    else
      var rest := FirstWithId(stations[1..], id);
      assert forall i :: 1 <= i < |stations| ==> stations[i] == stations[1..][i - 1];
      rest
  }

  class CsvChargingStationRepository {
    const rows: seq<RegistryRecord>
    var stations: Option<seq<ChargingStation>>

    constructor(rows: seq<RegistryRecord>)
      ensures this.rows == rows && stations == None
    {
      this.rows := rows;
      stations := None;
    }

    /** `_load_data`, which is also `get_all`: the cached list when there
        is one; otherwise one new station per admitted row, which is cached. */
    method LoadData() returns (r: seq<ChargingStation>)
      modifies this
      ensures stations == Some(r)
      ensures old(stations).Some? ==> r == old(stations).value
      ensures old(stations).None? ==> Records(r) == LoadedRecords(rows)
      ensures old(stations).None? ==> forall i :: 0 <= i < |r| ==> fresh(r[i])
    {
      if stations.Some? {
        return stations.value;
      }
      forall row | Admit(row).Some?
        ensures Admit(row).value.stationId != "" && Admit(row).value.postalCode != ""
      {
        AdmitSound(row);
      }
      r := BuildStations(rows, Admit);
      stations := Some(r);
    }

    /** `get_by_postal_code`: an exact string match on the loaded list. */
    method GetByPostalCode(postalCode: string) returns (r: seq<ChargingStation>)
      modifies this
      ensures stations.Some? && r == AtPostalCode(stations.value, postalCode)
      ensures old(stations).Some? ==> stations == old(stations)
      ensures old(stations).None? ==> Records(stations.value) == LoadedRecords(rows)
    {
      var all := LoadData();
      r := AtPostalCode(all, postalCode);
    }

    /** `get_by_id`. */
    method GetById(id: string) returns (r: Option<ChargingStation>)
      modifies this
      ensures stations.Some? && r == FirstWithId(stations.value, id)
      ensures old(stations).Some? ==> stations == old(stations)
      ensures old(stations).None? ==> Records(stations.value) == LoadedRecords(rows)
    {
      var all := LoadData();
      r := FirstWithId(all, id);
    }

    /** `count_by_postal_code`: the length of `get_by_postal_code`. */
    method CountByPostalCode(postalCode: string) returns (n: nat)
      modifies this
      ensures stations.Some? && n == |AtPostalCode(stations.value, postalCode)|
      ensures old(stations).Some? ==> stations == old(stations)
      ensures old(stations).None? ==> Records(stations.value) == LoadedRecords(rows)
    {
      var found := GetByPostalCode(postalCode);
      n := |found|;
    }

    /** `get_postal_codes_with_stations`: sorted, each code once. */
    method PostalCodesWithStations() returns (codes: seq<string>)
      modifies this
      ensures stations.Some? && codes == SortedSet(Codes(stations.value))
      ensures StrictlySorted(codes) && forall c :: c in codes <==> c in Codes(stations.value)
      ensures old(stations).Some? ==> stations == old(stations)
      ensures old(stations).None? ==> Records(stations.value) == LoadedRecords(rows)
    {
      var all := LoadData();
      codes := SortedSet(Codes(all));
      SortedSetSpec(Codes(all));
    }
  }
}
