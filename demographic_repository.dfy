/** The demographic repository. Its loader ignores the spreadsheet and
    builds a fixed list of Berlin postal codes, each with a mock population
    derived from the code's number; the list is built once and then served
    from the cache. */
module DemographicRepository {
  import opened Wrappers
  import opened Text
  import opened Tables
  import opened Demographics

  /** The postal codes the loader lists, in its order, written as a
      balanced sum of rows of eight so that each entry is a few steps from
      the top of the expression. */
  const MockCodes: seq<string> :=
    ((((["10115", "10117", "10119", "10178", "10179", "10243", "10245", "10247"] +
        (["10249", "10315", "10317", "10318", "10319", "10365", "10367", "10369"] +
         ["10405", "10407", "10409", "10435", "10437", "10439", "10551", "10553"])) +
       (["10555", "10557", "10559", "10585", "10587", "10589", "10623", "10625"] +
        (["10627", "10629", "10707", "10709", "10711", "10713", "10715", "10717"] +
         ["10719", "10777", "10779", "10781", "10783", "10785", "10787", "10789"]))) +
      ((["10823", "10825", "10827", "10829", "10961", "10963", "10965", "10967"] +
        (["10969", "10997", "10999", "12043", "12045", "12047", "12049", "12051"] +
         ["12053", "12055", "12057", "12059", "12099", "12101", "12103", "12105"])) +
       (["12107", "12109", "12157", "12159", "12161", "12163", "12165", "12167"] +
        (["12169", "12203", "12205", "12207", "12209", "12247", "12249", "12277"] +
         ["12279", "12305", "12307", "12309", "12347", "12349", "12351", "12353"])))) +
     (((["12355", "12357", "12359", "12435", "12437", "12439", "12459", "12487"] +
        (["12489", "12524", "12526", "12527", "12555", "12557", "12559", "12587"] +
         ["12589", "12619", "12621", "12623", "12627", "12629", "12679", "12681"])) +
       (["12683", "12685", "12687", "12689", "13051", "13053", "13055", "13057"] +
        (["13059", "13086", "13088", "13089", "13125", "13127", "13129", "13156"] +
         ["13158", "13159", "13187", "13189", "13347", "13349", "13351", "13353"]))) +
      ((["13355", "13357", "13359", "13403", "13405", "13407", "13409", "13435"] +
        (["13437", "13439", "13465", "13467", "13469", "13503", "13505", "13507"] +
         ["13509", "13581", "13583", "13585", "13587", "13589", "13591", "13593"])) +
       (["13595", "13597", "13599", "13627", "13629", "13739", "14050", "14052"] +
        (["14053", "14055", "14057", "14059", "14089", "14109", "14129", "14131"] +
         ["14163", "14165", "14167", "14169", "14193", "14195", "14197", "14199"])))))

  /** The mock population of the code numbered `n`: 5000 plus ten per unit
      of the number's last three digits. */
  function MockPopulation(n: int): (p: int)
    ensures 5000 <= p <= 14990
    ensures n >= 0 ==> p == 5000 + (n % 1000) * 10
  {
    5000 + (n % 1000) * 10
  }

  predicate FiveDigits(s: string) {
    |s| == 5 && AllDigits(s)
  }

  /** Every listed code is five digits. */
  predicate AllFiveDigits(codes: seq<string>) {
    forall i :: 0 <= i < |codes| ==> FiveDigits(codes[i])
  }

  /** `FiveDigits`, spelled out character by character. */
  function FiveDigitChars(s: string): bool
  {
    |s| == 5 && IsDigit(s[0]) && IsDigit(s[1]) && IsDigit(s[2]) && IsDigit(s[3]) && IsDigit(s[4])
  }

  lemma {:induction false} FiveDigitCharsSound(s: string)
    requires FiveDigitChars(s)
    ensures FiveDigits(s)
  {
    forall j | 0 <= j < 5
      ensures IsDigit(s[j])
    {
      assert j == 0 || j == 1 || j == 2 || j == 3 || j == 4;
    }
  }

  /** Eight codes from the `lo`th on, checked one by one, are five digits. */
  lemma {:induction false} CheckedRange(codes: seq<string>, lo: nat)
    requires lo + 8 <= |codes|
    requires FiveDigitChars(codes[lo]) && FiveDigitChars(codes[lo + 1])
    requires FiveDigitChars(codes[lo + 2]) && FiveDigitChars(codes[lo + 3])
    requires FiveDigitChars(codes[lo + 4]) && FiveDigitChars(codes[lo + 5])
    requires FiveDigitChars(codes[lo + 6]) && FiveDigitChars(codes[lo + 7])
    ensures forall i :: lo <= i < lo + 8 ==> FiveDigits(codes[i])
  {
    forall i | lo <= i < lo + 8
      ensures FiveDigits(codes[i])
    {
      assert i == lo || i == lo + 1 || i == lo + 2 || i == lo + 3 || i == lo + 4 || i == lo + 5 || i == lo + 6 || i == lo + 7;
      FiveDigitCharsSound(codes[i]);
    }
  }

  // The listed codes, eight at a time.
  lemma MockCodesFiveDigits0() ensures forall i :: 0 <= i < 8 <= |MockCodes| ==> FiveDigits(MockCodes[i]) { CheckedRange(MockCodes, 0); }
  lemma MockCodesFiveDigits8() ensures forall i :: 8 <= i < 16 <= |MockCodes| ==> FiveDigits(MockCodes[i]) { CheckedRange(MockCodes, 8); }
  lemma MockCodesFiveDigits16() ensures forall i :: 16 <= i < 24 <= |MockCodes| ==> FiveDigits(MockCodes[i]) { CheckedRange(MockCodes, 16); }
  lemma MockCodesFiveDigits24() ensures forall i :: 24 <= i < 32 <= |MockCodes| ==> FiveDigits(MockCodes[i]) { CheckedRange(MockCodes, 24); }
  lemma MockCodesFiveDigits32() ensures forall i :: 32 <= i < 40 <= |MockCodes| ==> FiveDigits(MockCodes[i]) { CheckedRange(MockCodes, 32); }
  lemma MockCodesFiveDigits40() ensures forall i :: 40 <= i < 48 <= |MockCodes| ==> FiveDigits(MockCodes[i]) { CheckedRange(MockCodes, 40); }
  lemma MockCodesFiveDigits48() ensures forall i :: 48 <= i < 56 <= |MockCodes| ==> FiveDigits(MockCodes[i]) { CheckedRange(MockCodes, 48); }
  lemma MockCodesFiveDigits56() ensures forall i :: 56 <= i < 64 <= |MockCodes| ==> FiveDigits(MockCodes[i]) { CheckedRange(MockCodes, 56); }
  lemma MockCodesFiveDigits64() ensures forall i :: 64 <= i < 72 <= |MockCodes| ==> FiveDigits(MockCodes[i]) { CheckedRange(MockCodes, 64); }
  lemma MockCodesFiveDigits72() ensures forall i :: 72 <= i < 80 <= |MockCodes| ==> FiveDigits(MockCodes[i]) { CheckedRange(MockCodes, 72); }
  lemma MockCodesFiveDigits80() ensures forall i :: 80 <= i < 88 <= |MockCodes| ==> FiveDigits(MockCodes[i]) { CheckedRange(MockCodes, 80); }
  lemma MockCodesFiveDigits88() ensures forall i :: 88 <= i < 96 <= |MockCodes| ==> FiveDigits(MockCodes[i]) { CheckedRange(MockCodes, 88); }
  lemma MockCodesFiveDigits96() ensures forall i :: 96 <= i < 104 <= |MockCodes| ==> FiveDigits(MockCodes[i]) { CheckedRange(MockCodes, 96); }
  lemma MockCodesFiveDigits104() ensures forall i :: 104 <= i < 112 <= |MockCodes| ==> FiveDigits(MockCodes[i]) { CheckedRange(MockCodes, 104); }
  lemma MockCodesFiveDigits112() ensures forall i :: 112 <= i < 120 <= |MockCodes| ==> FiveDigits(MockCodes[i]) { CheckedRange(MockCodes, 112); }
  lemma MockCodesFiveDigits120() ensures forall i :: 120 <= i < 128 <= |MockCodes| ==> FiveDigits(MockCodes[i]) { CheckedRange(MockCodes, 120); }
  lemma MockCodesFiveDigits128() ensures forall i :: 128 <= i < 136 <= |MockCodes| ==> FiveDigits(MockCodes[i]) { CheckedRange(MockCodes, 128); }
  lemma MockCodesFiveDigits136() ensures forall i :: 136 <= i < 144 <= |MockCodes| ==> FiveDigits(MockCodes[i]) { CheckedRange(MockCodes, 136); }
  lemma MockCodesFiveDigits144() ensures forall i :: 144 <= i < 152 <= |MockCodes| ==> FiveDigits(MockCodes[i]) { CheckedRange(MockCodes, 144); }
  lemma MockCodesFiveDigits152() ensures forall i :: 152 <= i < 160 <= |MockCodes| ==> FiveDigits(MockCodes[i]) { CheckedRange(MockCodes, 152); }
  lemma MockCodesFiveDigits160() ensures forall i :: 160 <= i < 168 <= |MockCodes| ==> FiveDigits(MockCodes[i]) { CheckedRange(MockCodes, 160); }
  lemma MockCodesFiveDigits168() ensures forall i :: 168 <= i < 176 <= |MockCodes| ==> FiveDigits(MockCodes[i]) { CheckedRange(MockCodes, 168); }
  lemma MockCodesFiveDigits176() ensures forall i :: 176 <= i < 184 <= |MockCodes| ==> FiveDigits(MockCodes[i]) { CheckedRange(MockCodes, 176); }
  lemma MockCodesFiveDigits184() ensures forall i :: 184 <= i < 192 <= |MockCodes| ==> FiveDigits(MockCodes[i]) { CheckedRange(MockCodes, 184); }

  /** Every listed code is five digits, so `int(postal_code)` reads it. */
  lemma MockCodesAreFiveDigits()
    ensures AllFiveDigits(MockCodes)
  {
    MockCodesFiveDigits0();
    MockCodesFiveDigits8();
    MockCodesFiveDigits16();
    MockCodesFiveDigits24();
    MockCodesFiveDigits32();
    MockCodesFiveDigits40();
    MockCodesFiveDigits48();
    MockCodesFiveDigits56();
    MockCodesFiveDigits64();
    MockCodesFiveDigits72();
    MockCodesFiveDigits80();
    MockCodesFiveDigits88();
    MockCodesFiveDigits96();
    MockCodesFiveDigits104();
    MockCodesFiveDigits112();
    MockCodesFiveDigits120();
    MockCodesFiveDigits128();
    MockCodesFiveDigits136();
    MockCodesFiveDigits144();
    MockCodesFiveDigits152();
    MockCodesFiveDigits160();
    MockCodesFiveDigits168();
    MockCodesFiveDigits176();
    MockCodesFiveDigits184();
  }

  /** The field values the loader gives a code: the mock population of
      `int(code)`, no density, no area. */
  function MockRecord(code: string): DemographicRecord
    requires FiveDigits(code)
  {
    DemographicRecord(code, PopulationData(MockPopulation(DigitsValue(code)), None), None)
  }

  /** The areas the loader builds from a list of codes, as field values. */
  function MockRecords(codes: seq<string>): (r: seq<DemographicRecord>)
    requires AllFiveDigits(codes)
    ensures |r| == |codes|
    ensures forall i :: 0 <= i < |codes| ==> r[i] == MockRecord(codes[i])
  {
    seq(|codes|, i requires 0 <= i < |codes| => MockRecord(codes[i]))
  }

  /** Each listed code's population is `5000 + (int(code) % 1000) * 10`,
      between 5000 and 14990. */
  lemma {:induction false} MockRecordsPopulation(codes: seq<string>, i: int)
    requires AllFiveDigits(codes) && 0 <= i < |codes|
    ensures PyInt(codes[i]).Some?
    ensures MockRecords(codes)[i].populationData.totalPopulation == 5000 + (PyInt(codes[i]).value % 1000) * 10
    ensures 5000 <= MockRecords(codes)[i].populationData.totalPopulation <= 14990
  {
    PyIntOfDigits(codes[i]);
  }

  /** The loop of `_load_data` over a list of codes: one new area per code,
      in order. */
  method BuildMockAreas(codes: seq<string>) returns (r: seq<DemographicArea>)
    requires AllFiveDigits(codes)
    ensures Records(r) == MockRecords(codes)
    ensures forall i :: 0 <= i < |r| ==> fresh(r[i])
  {
    r := [];
    ghost var built := MockRecords(codes);
    var k := 0;
    while k < |codes|
      invariant 0 <= k <= |codes|
      invariant |r| == k && forall i :: 0 <= i < k ==> r[i].Record() == built[i]
      invariant forall i :: 0 <= i < |r| ==> fresh(r[i])
    {
      assert FiveDigits(codes[k]);
      var rec := MockRecord(codes[k]);
      var a := new DemographicArea(rec.postalCode, rec.populationData, rec.areaSqKm);
      assert a.Record() == built[k];
      r := r + [a];
      k := k + 1;
    }
    assert Records(r) == built;
  }

  // ------------------------------------------------------------ queries

  /** The first area with the postal code, as `next(..., None)` finds it. */
  function FirstArea(areas: seq<DemographicArea>, postalCode: string): (r: Option<DemographicArea>)
    reads set a | a in areas
    ensures r.Some? ==> exists i :: 0 <= i < |areas| && areas[i] == r.value && areas[i].postalCode == postalCode
                                   && forall k :: 0 <= k < i ==> areas[k].postalCode != postalCode
    ensures r.None? ==> forall i :: 0 <= i < |areas| ==> areas[i].postalCode != postalCode
  {
    if areas == [] then None
    else if areas[0].postalCode == postalCode then Some(areas[0])
    else
      var rest := FirstArea(areas[1..], postalCode);
      assert forall i :: 1 <= i < |areas| ==> areas[i] == areas[1..][i - 1];
      rest
  }

  /** `get_population_by_postal_code`: the population of the first area
      with the code; `None` when there is none. */
  function PopulationOf(areas: seq<DemographicArea>, postalCode: string): (r: Option<int>)
    reads set a | a in areas
    ensures r.None? <==> forall i :: 0 <= i < |areas| ==> areas[i].postalCode != postalCode
    ensures r.Some? ==> exists i :: 0 <= i < |areas| && areas[i].postalCode == postalCode && r.value == areas[i].Population()
                                   && forall k :: 0 <= k < i ==> areas[k].postalCode != postalCode
  {
    match FirstArea(areas, postalCode)
    case None => None
    case Some(a) => Some(a.Population())
  }

  /** The populations of a list of areas, in order. */
  function Populations(areas: seq<DemographicArea>): (r: seq<int>)
    reads set a | a in areas
    ensures |r| == |areas| && forall i :: 0 <= i < |areas| ==> r[i] == areas[i].Population()
  {
    if areas == [] then [] else [areas[0].Population()] + Populations(areas[1..])
  }

  /** `get_total_population`: the sum of all populations. */
  function TotalPopulation(areas: seq<DemographicArea>): int
    reads set a | a in areas
  {
    SumInt(Populations(areas))
  }

  /** The total of valid areas is never negative. */
  lemma {:induction false} TotalPopulationNonNegative(areas: seq<DemographicArea>)
    requires forall i :: 0 <= i < |areas| ==> areas[i].Valid()
    ensures TotalPopulation(areas) >= 0
  {
    SumIntNonNegative(Populations(areas));
  }

  /** The areas whose population lies between the bounds, both inclusive,
      in order. */
  function InPopulationRange(areas: seq<DemographicArea>, minPop: int, maxPop: int): (r: seq<DemographicArea>)
    reads set a | a in areas
    ensures |r| <= |areas|
    ensures forall i :: 0 <= i < |r| ==> r[i] in areas && minPop <= r[i].Population() <= maxPop
    ensures forall j :: 0 <= j < |areas| && minPop <= areas[j].Population() <= maxPop ==> areas[j] in r
  {
    if areas == [] then []
    else
      var rest := InPopulationRange(areas[1..], minPop, maxPop);
      assert forall i :: 1 <= i < |areas| ==> areas[i] == areas[1..][i - 1];
      if minPop <= areas[0].Population() <= maxPop then [areas[0]] + rest else rest
  }

  /** The postal codes of a list of areas, in order; the same shape as
      `Charging.Codes`, over demographic areas. */
  function Codes(areas: seq<DemographicArea>): (r: seq<string>)
    reads set a | a in areas
    ensures |r| == |areas| && forall i :: 0 <= i < |areas| ==> r[i] == areas[i].postalCode
  {
    if areas == [] then [] else [areas[0].postalCode] + Codes(areas[1..])
  }

  /** `get_postal_codes_by_population_range`: the codes of the areas in the
      range, in order. */
  function CodesInPopulationRange(areas: seq<DemographicArea>, minPop: int, maxPop: int): seq<string>
    reads set a | a in areas
  {
    Codes(InPopulationRange(areas, minPop, maxPop))
  }

  /** A code is listed when some area with it is in the range, and only then. */
  lemma {:induction false} CodesInPopulationRangeMembership(areas: seq<DemographicArea>, minPop: int, maxPop: int, code: string)
    ensures code in CodesInPopulationRange(areas, minPop, maxPop) <==>
      exists j :: 0 <= j < |areas| && areas[j].postalCode == code && minPop <= areas[j].Population() <= maxPop
  {
    var inRange := InPopulationRange(areas, minPop, maxPop);
    var codes := CodesInPopulationRange(areas, minPop, maxPop);
    if code in codes {
      var i :| 0 <= i < |codes| && codes[i] == code;
      assert inRange[i] in areas;
      var j :| 0 <= j < |areas| && areas[j] == inRange[i];
      assert areas[j].postalCode == code && minPop <= areas[j].Population() <= maxPop;
    }
    if exists j :: 0 <= j < |areas| && areas[j].postalCode == code && minPop <= areas[j].Population() <= maxPop {
      var j :| 0 <= j < |areas| && areas[j].postalCode == code && minPop <= areas[j].Population() <= maxPop;
      var i :| 0 <= i < |inRange| && inRange[i] == areas[j];
      assert codes[i] == code;
    }
  }

  class ExcelDemographicRepository {
    var areas: Option<seq<DemographicArea>>

    constructor()
      ensures areas == None
    {
      areas := None;
    }

    /** `_load_data`, which is also `get_all`: the cached list when there
        is one; otherwise one new area per listed code, which is cached. */
    method LoadData() returns (r: seq<DemographicArea>)
      modifies this
      ensures areas == Some(r)
      ensures old(areas).Some? ==> r == old(areas).value
      ensures old(areas).None? ==> AllFiveDigits(MockCodes) && Records(r) == MockRecords(MockCodes)
      ensures old(areas).None? ==> forall i :: 0 <= i < |r| ==> fresh(r[i])
    {
      if areas.Some? {
        return areas.value;
      }
      MockCodesAreFiveDigits();
      r := BuildMockAreas(MockCodes);
      areas := Some(r);
    }

    /** `get_by_postal_code`. */
    method GetByPostalCode(postalCode: string) returns (r: Option<DemographicArea>)
      modifies this
      ensures areas.Some? && r == FirstArea(areas.value, postalCode)
      ensures old(areas).Some? ==> areas == old(areas)
      ensures old(areas).None? ==> AllFiveDigits(MockCodes) && Records(areas.value) == MockRecords(MockCodes)
    {
      var all := LoadData();
      r := FirstArea(all, postalCode);
    }

    /** `get_population_by_postal_code`. */
    method GetPopulationByPostalCode(postalCode: string) returns (r: Option<int>)
      modifies this
      ensures areas.Some? && r == PopulationOf(areas.value, postalCode)
      ensures old(areas).Some? ==> areas == old(areas)
      ensures old(areas).None? ==> AllFiveDigits(MockCodes) && Records(areas.value) == MockRecords(MockCodes)
    {
      var area := GetByPostalCode(postalCode);
      r := if area.Some? then Some(area.value.Population()) else None;
    }

    /** `get_total_population`. */
    method GetTotalPopulation() returns (total: int)
      modifies this
      ensures areas.Some? && total == TotalPopulation(areas.value)
      ensures old(areas).Some? ==> areas == old(areas)
      ensures old(areas).None? ==> AllFiveDigits(MockCodes) && Records(areas.value) == MockRecords(MockCodes)
    {
      var all := LoadData();
      total := TotalPopulation(all);
    }

    /** `get_postal_codes_by_population_range`. */
    method GetPostalCodesByPopulationRange(minPop: int, maxPop: int) returns (codes: seq<string>)
      modifies this
      ensures areas.Some? && codes == CodesInPopulationRange(areas.value, minPop, maxPop)
      ensures old(areas).Some? ==> areas == old(areas)
      ensures old(areas).None? ==> AllFiveDigits(MockCodes) && Records(areas.value) == MockRecords(MockCodes)
    {
      var all := LoadData();
      codes := CodesInPopulationRange(all, minPop, maxPop);
    }
  }
}
