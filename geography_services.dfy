/** The geography domain service over the postal-area repository: the
    Berlin postal-code check, the Berlin area list, the area containing a
    point and a table of centroids. */
module GeographyServices {
  import opened Wrappers
  import opened Text
  import opened Tables
  import opened Dicts
  import opened Geography
  import opened PostalAreaRepository

  /** `validate_berlin_postal_code`: `int()` reads the code and the number
      lies in 10000..14200, both inclusive; a code `int()` rejects is not
      valid. */
  predicate ValidBerlinPostalCode(postalCode: string)
  {
    match PyInt(postalCode)
    case None => false
    case Some(n) => 10000 <= n <= 14200
  }

  /** The bounds `get_berlin_postal_areas` hands to the repository. */
  const BerlinLow: string := "10000"
  const BerlinHigh: string := "14200"

  /** Membership in the string range `get_berlin_postal_areas` asks for. */
  predicate InBerlinStringRange(postalCode: string)
  {
    LexLessEq(BerlinLow, postalCode) && LexLessEq(postalCode, BerlinHigh)
  }

  /** The value of a five-digit string, place by place. */
  lemma {:induction false} FiveDigitsValue(s: string)
    requires |s| == 5 && AllDigits(s)
    ensures DigitsValue(s) == DigitValue(s[0]) * 10000 + DigitValue(s[1]) * 1000 + DigitValue(s[2]) * 100
                              + DigitValue(s[3]) * 10 + DigitValue(s[4])
  {
    assert s[..4][..3] == s[..3] && s[..3][..2] == s[..2] && s[..2][..1] == s[..1] && s[..1][..0] == [];
    assert DigitsValue(s[..1]) == DigitValue(s[0]);
    assert DigitsValue(s[..2]) == 10 * DigitValue(s[0]) + DigitValue(s[1]);
    assert DigitsValue(s[..3]) == 10 * DigitsValue(s[..2]) + DigitValue(s[2]);
    assert DigitsValue(s[..4]) == 10 * DigitsValue(s[..3]) + DigitValue(s[3]);
  }

  /** On five-digit codes the string range of `get_berlin_postal_areas` and
      the numeric check of `validate_berlin_postal_code` agree. */
  lemma {:induction false} BerlinRangeAgreesOnFiveDigits(postalCode: string)
    requires |postalCode| == 5 && AllDigits(postalCode)
    ensures InBerlinStringRange(postalCode) <==> ValidBerlinPostalCode(postalCode)
  {
    FiveDigitsValue(BerlinLow);
    FiveDigitsValue(BerlinHigh);
    CodeRangeIsNumeric(BerlinLow, postalCode, BerlinHigh);
    PyIntOfDigits(postalCode);
  }

  /** A four-digit code such as "1400" lies in the string range although
      the number it denotes is not a Berlin postal code. */
  lemma ShortCodeInStringRange()
    ensures InBerlinStringRange("1400") && !ValidBerlinPostalCode("1400")
  {
    assert LexLess(BerlinLow, "1400") by {
      assert BerlinLow[1..] == "0000" && "1400"[1..] == "400";
    }
    assert LexLess("1400", BerlinHigh) by {
      assert BerlinHigh[1..] == "4200" && "1400"[1..] == "400";
      assert BerlinHigh[2..] == "200" && "1400"[2..] == "00";
    }
    PyIntOfDigits("1400");
    DigitsValueBound("1400");
    assert Pow10(4) == 10000;
  }

  /** A code with a leading space is valid for `int()`, but sorts before
      "10000" and so is outside the string range. */
  lemma PaddedCodeOutsideStringRange()
    ensures !InBerlinStringRange(" 10115") && ValidBerlinPostalCode(" 10115")
  {
    assert LexLess(" 10115", BerlinLow);
    LexLessAsymmetric(" 10115", BerlinLow);
    PaddedCodeReadsAsNumber();
  }

  /** `int(" 10115")` ignores the space and reads 10115. */
  lemma PaddedCodeReadsAsNumber()
    ensures PyInt(" 10115") == Some(10115)
  {
    PaddedCodeStrips();
    CodeDigits();
    PyIntOfPaddedDigits(" 10115");
  }

  lemma CodeDigits()
    ensures AllDigits("10115") && DigitsValue("10115") == 10115
  {
    FiveDigitsValue("10115");
  }

  lemma PaddedCodeStrips()
    ensures Strip(" 10115") == "10115"
  {
    assert !IsSpace('1') && !IsSpace('5');
    assert StripStart(" 10115") == 1;
    assert StripEnd(" 10115") == 6;
    assert " 10115"[1..6] == "10115";
  }

  /** The code of the first area containing the point, `None` when no area
      contains it. */
  function PostalCodeAt(areas: seq<PostalArea>, contains: Contains, point: Coordinate): (r: Option<string>)
    reads set a | a in areas
    ensures r.None? <==> forall i :: 0 <= i < |areas| ==> !contains(areas[i].geometry, point)
    ensures r.Some? ==> exists i :: 0 <= i < |areas| && areas[i].postalCode == r.value && contains(areas[i].geometry, point)
                                   && forall k :: 0 <= k < i ==> !contains(areas[k].geometry, point)
  {
    match FirstContaining(areas, contains, point)
    case None => None
    case Some(area) => Some(area.postalCode)
  }

  /** The dictionary `get_centroid_coordinates` builds for the codes asked
      for, in order: each code with a centroid is written in, a repeated
      code overwrites its own entry. */
  function CentroidTable(areas: seq<PostalArea>, postalCodes: seq<string>): Dict<string, Coordinate>
    reads set a | a in areas
  {
    if postalCodes == [] then []
    else
      var before := CentroidTable(areas, postalCodes[..|postalCodes| - 1]);
      var code := postalCodes[|postalCodes| - 1];
      match CentroidFor(areas, code)
      case None => before
      case Some(c) => Put(before, code, c)
  }

  /** One more requested code adds its centroid, when it has one. */
  lemma {:induction false} CentroidTableStep(areas: seq<PostalArea>, postalCodes: seq<string>, k: nat)
    requires k < |postalCodes|
    ensures CentroidTable(areas, postalCodes[..k + 1]) ==
      match CentroidFor(areas, postalCodes[k])
      case None => CentroidTable(areas, postalCodes[..k])
      case Some(c) => Put(CentroidTable(areas, postalCodes[..k]), postalCodes[k], c)
  {
    assert postalCodes[..k + 1][..k] == postalCodes[..k];
  }

  /** The table has one entry per key, and a code has an entry exactly when
      it was asked for and has a centroid, which is that entry. */
  lemma {:induction false} CentroidTableSpec(areas: seq<PostalArea>, postalCodes: seq<string>)
    ensures UniqueKeys(CentroidTable(areas, postalCodes))
    ensures forall code ::
      LookupRight(CentroidTable(areas, postalCodes), code) == if code in postalCodes then CentroidFor(areas, code) else None
  {
    if postalCodes != [] {
      var init := postalCodes[..|postalCodes| - 1];
      var last := postalCodes[|postalCodes| - 1];
      CentroidTableSpec(areas, init);
      assert postalCodes == init + [last];
      match CentroidFor(areas, last)
      case None =>
      case Some(c) => PutSpec(CentroidTable(areas, init), last, c);
    }
  }

  class GeographyService {
    const repository: ShapefilePostalAreaRepository

    constructor(repository: ShapefilePostalAreaRepository)
      ensures this.repository == repository
    {
      this.repository := repository;
    }

    /** `get_centroid_for_postal_code`, passed on to the repository. */
    method GetCentroidForPostalCode(postalCode: string) returns (r: Option<Coordinate>)
      modifies repository
      ensures repository.areas.Some? && r == CentroidFor(repository.areas.value, postalCode)
      ensures old(repository.areas).Some? ==> repository.areas == old(repository.areas)
    {
      r := repository.GetCentroidForPostalCode(postalCode);
    }

    /** `get_berlin_postal_areas`: the areas in the string range
        "10000".."14200". */
    method GetBerlinPostalAreas() returns (r: seq<PostalArea>)
      modifies repository
      ensures repository.areas.Some? && r == InCodeRange(repository.areas.value, BerlinLow, BerlinHigh)
      ensures old(repository.areas).Some? ==> repository.areas == old(repository.areas)
    {
      r := repository.GetPostalCodesInRange(BerlinLow, BerlinHigh);
    }

    /** `find_postal_code_for_location`. */
    method FindPostalCodeForLocation(contains: Contains, point: Coordinate) returns (r: Option<string>)
      modifies repository
      ensures repository.areas.Some? && r == PostalCodeAt(repository.areas.value, contains, point)
      ensures old(repository.areas).Some? ==> repository.areas == old(repository.areas)
    {
      var area := repository.FindPostalAreaForCoordinate(contains, point);
      r := if area.Some? then Some(area.value.postalCode) else None;
    }

    /** `validate_berlin_postal_code`. */
    method ValidateBerlinPostalCode(postalCode: string) returns (valid: bool)
      ensures valid <==> ValidBerlinPostalCode(postalCode)
    {
      var n := PyInt(postalCode);
      valid := n.Some? && 10000 <= n.value <= 14200;
    }

    /** `get_centroid_coordinates`: the areas are loaded by the first
        look-up, so an empty request loads nothing. */
    method GetCentroidCoordinates(postalCodes: seq<string>) returns (r: Dict<string, Coordinate>)
      modifies repository
      ensures old(repository.areas).Some? ==> repository.areas == old(repository.areas)
      ensures postalCodes != [] ==> repository.areas.Some?
      ensures repository.areas.Some? ==> r == CentroidTable(repository.areas.value, postalCodes)
      ensures repository.areas.None? ==> r == []
    {
      r := [];
      var k := 0;
      while k < |postalCodes|
        invariant 0 <= k <= |postalCodes|
        invariant old(repository.areas).Some? ==> repository.areas == old(repository.areas)
        invariant k > 0 ==> repository.areas.Some?
        invariant repository.areas.Some? ==> r == CentroidTable(repository.areas.value, postalCodes[..k])
        invariant repository.areas.None? ==> r == []
      {
        ghost var loaded := repository.areas;
        var centroid := repository.GetCentroidForPostalCode(postalCodes[k]);
        if k == 0 {
          assert postalCodes[..0] == [];
        } else {
          assert repository.areas == loaded;
          assert r == CentroidTable(repository.areas.value, postalCodes[..k]);
        }
        CentroidTableStep(repository.areas.value, postalCodes, k);
        if centroid.Some? {
          r := Put(r, postalCodes[k], centroid.value);
        }
        k := k + 1;
      }
      assert postalCodes[..k] == postalCodes;
    }
  }
}
