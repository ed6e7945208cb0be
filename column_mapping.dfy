/** The last step of loading the residents table in the main program: the
    headings are renamed to `plz`, `einwohner`, `lat` and `lon` where a
    variant is recognised, and the table is refused when any of the four is
    still missing. */
module ColumnMapping {
  import opened Wrappers
  import opened Text
  import opened Cells

  /** The four columns the later stages select. */
  const Required: set<string> := {"plz", "einwohner", "lat", "lon"}

  /** Headings accepted as latitude and as longitude. */
  const LatNames: set<string> := {"lat", "breitengrad", "latitude"}
  const LonNames: set<string> := {"lon", "lng", "longitude", "längengrad"}

  function HeadingSet(cols: seq<string>): set<string> {
    set c | c in cols
  }

  /** The first heading containing `w` (case-sensitive), if any. */
  function FirstContaining(cols: seq<string>, w: string): (r: Option<string>)
    ensures r.Some? ==> r.value in cols && Contains(r.value, w)
    ensures r.None? <==> forall j :: 0 <= j < |cols| ==> !Contains(cols[j], w)
    ensures r.Some? ==> exists j :: (0 <= j < |cols| && cols[j] == r.value
      && forall m :: 0 <= m < j ==> !Contains(cols[m], w))
  {
    if cols == [] then None
    else if Contains(cols[0], w) then Some(cols[0])
    else
      var r := FirstContaining(cols[1..], w);
      assert forall j :: 1 <= j < |cols| ==> cols[j] == cols[1..][j - 1];
      if r.Some? then
        var j :| 0 <= j < |cols[1..]| && cols[1..][j] == r.value
          && forall m :: 0 <= m < j ==> !Contains(cols[1..][m], w);
        assert cols[j + 1] == r.value;
        r
      else r
  }

  /** The last heading that is one of `names`, if any. */
  function LastAmong(cols: seq<string>, names: set<string>): (r: Option<string>)
    ensures r.Some? ==> r.value in cols && r.value in names
    ensures r.None? <==> forall j :: 0 <= j < |cols| ==> cols[j] !in names
  {
    if cols == [] then None
    else if cols[|cols| - 1] in names then Some(cols[|cols| - 1])
    else
      var init := cols[..|cols| - 1];
      assert forall j :: 0 <= j < |init| ==> init[j] == cols[j];
      LastAmong(init, names)
  }

  /** The column renamed to `plz`: `plz` itself, else the first heading containing it. */
  function PlzSource(cols: seq<string>): Option<string> {
    if "plz" in cols then Some("plz") else FirstContaining(cols, "plz")
  }

  /** The column renamed to `einwohner`: itself, else the first heading containing `einw`. */
  function EinwohnerSource(cols: seq<string>): Option<string> {
    if "einwohner" in cols then Some("einwohner") else FirstContaining(cols, "einw")
  }

  function Put(m: map<string, string>, k: Option<string>, v: string): map<string, string> {
    if k.Some? then m[k.value := v] else m
  }

  /** The renaming dictionary, filled in the source's order, so a later entry
      for the same heading overwrites an earlier one. */
  function Mapper(cols: seq<string>): map<string, string> {
    var m := Put(map[], PlzSource(cols), "plz");
    var m := Put(m, EinwohnerSource(cols), "einwohner");
    var m := Put(m, LastAmong(cols, LatNames), "lat");
    Put(m, LastAmong(cols, LonNames), "lon")
  }

  /** `rename(columns=mapper)`: every heading that is a key is replaced. */
  function Renamed(cols: seq<string>, m: map<string, string>): (r: seq<string>)
    ensures |r| == |cols|
    ensures forall j :: 0 <= j < |cols| ==> r[j] == (if cols[j] in m then m[cols[j]] else cols[j])
  {
    seq(|cols|, j requires 0 <= j < |cols| => if cols[j] in m then m[cols[j]] else cols[j])
  }

  /** A set that is not a subset of another has an element outside it. */
  lemma {:induction false} NotSubsetLeavesSome(a: set<string>, b: set<string>)
    requires !(a <= b)
    ensures a - b != {}
  {
    var x :| x in a && x !in b;
    assert x in a - b;
  }

  /** The required-column check: `Err` carries the set of missing names
      that the source reports in its `RuntimeError`. */
  function RequiredCheck(cols: seq<string>): (r: Result<(), set<string>>)
    ensures r.Ok? <==> Required <= HeadingSet(cols)
    ensures r.Err? ==> (r.error != {} && r.error <= Required
      && forall c :: c in r.error ==> c !in cols)
    ensures r.Err? ==> forall c :: c in Required && c !in r.error ==> c in cols
  {
    if Required <= HeadingSet(cols) then Ok(())
    else
      var missing := Required - HeadingSet(cols);
      NotSubsetLeavesSome(Required, HeadingSet(cols));
      Err(missing)
  }

  /** The scan for the first heading containing `w`, stopping there. */
  method FindFirstContaining(cols: seq<string>, w: string) returns (r: Option<string>)
    ensures r == FirstContaining(cols, w)
  {
    r := None;
    var i := 0;
    while i < |cols|
      invariant 0 <= i <= |cols|
      invariant forall j :: 0 <= j < i ==> !Contains(cols[j], w)
    {
      if Contains(cols[i], w) {
        FirstContainingIsFirst(cols, w, i);
        return Some(cols[i]);
      }
      i := i + 1;
    }
  }

  /** The scan for latitude and longitude headings, keeping the last of each. */
  method FindCoordinateHeadings(cols: seq<string>) returns (latCol: Option<string>, lonCol: Option<string>)
    ensures latCol == LastAmong(cols, LatNames)
    ensures lonCol == LastAmong(cols, LonNames)
  {
    latCol, lonCol := None, None;
    var i := 0;
    while i < |cols|
      invariant 0 <= i <= |cols|
      invariant latCol == LastAmong(cols[..i], LatNames)
      invariant lonCol == LastAmong(cols[..i], LonNames)
    {
      assert cols[..i + 1][..i] == cols[..i];
      if cols[i] in LatNames {
        latCol := Some(cols[i]);
      }
      if cols[i] in LonNames {
        lonCol := Some(cols[i]);
      }
      i := i + 1;
    }
    assert cols[..i] == cols;
  }

  /** Building the dictionary with the source's three loops: the first two
      stop at the first heading containing the word, the third keeps the
      last latitude and longitude heading. */
  method BuildMapper(cols: seq<string>) returns (m: map<string, string>)
    ensures m == Mapper(cols)
  {
    var plz: Option<string>;
    if "plz" in cols {
      plz := Some("plz");
    } else {
      plz := FindFirstContaining(cols, "plz");
    }
    var einw: Option<string>;
    if "einwohner" in cols {
      einw := Some("einwohner");
    } else {
      einw := FindFirstContaining(cols, "einw");
    }
    var latCol, lonCol := FindCoordinateHeadings(cols);
    assert plz == PlzSource(cols) && einw == EinwohnerSource(cols);
    m := Put(map[], plz, "plz");
    m := Put(m, einw, "einwohner");
    m := Put(m, latCol, "lat");
    m := Put(m, lonCol, "lon");
  }

  lemma {:induction false} FirstContainingIsFirst(cols: seq<string>, w: string, i: nat)
    requires i < |cols| && Contains(cols[i], w)
    requires forall j :: 0 <= j < i ==> !Contains(cols[j], w)
    ensures FirstContaining(cols, w) == Some(cols[i])
  {
    if i > 0 {
      assert forall j :: 0 <= j < i - 1 ==> cols[1..][j] == cols[j + 1];
      FirstContainingIsFirst(cols[1..], w, i - 1);
    }
  }

  /** Every key of the dictionary is a heading of the table, so the source's
      filter `if k in columns` keeps all of it. */
  lemma {:induction false} MapperKeysAreHeadings(cols: seq<string>)
    ensures forall k :: k in Mapper(cols) ==> k in cols
  {
  }

  lemma {:induction false} LatAndLonNamesDiffer(a: string, b: string)
    requires a in LatNames && b in LonNames
    ensures a != b
  {
    assert a[1] == 'a' || a[1] == 'r';
    assert b[1] == 'o' || b[1] == 'n' || b[1] == 'ä';
  }

  lemma NoPInCoordinateNames()
    ensures forall c :: c in LatNames + LonNames ==> 'p' !in c && 'w' !in c
  {
  }

  /** A coordinate heading neither contains `plz` nor `einw`. */
  lemma {:induction false} CoordinateNamesAreNoSources(c: string)
    requires c in LatNames + LonNames
    ensures !Contains(c, "plz") && !Contains(c, "einw")
  {
    NoPInCoordinateNames();
    if Contains(c, "plz") {
      ContainsChars(c, "plz", 'p');
    }
    if Contains(c, "einw") {
      ContainsChars(c, "einw", 'w');
    }
  }

  lemma {:induction false} UpdatesOfDistinctKeys(p: string, e: string, la: string, lo: string)
    requires p != e && p != la && p != lo && e != la && e != lo && la != lo
    ensures var m := map[][p := "plz"][e := "einwohner"][la := "lat"][lo := "lon"];
      m[p] == "plz" && m[e] == "einwohner" && m[la] == "lat" && m[lo] == "lon"
  {
  }

  /** With four distinct sources, each source is renamed to its own name. */
  lemma {:induction false} MapperOfDistinctSources(cols: seq<string>)
    requires PlzSource(cols).Some? && EinwohnerSource(cols).Some?
    requires LastAmong(cols, LatNames).Some? && LastAmong(cols, LonNames).Some?
    requires PlzSource(cols) != EinwohnerSource(cols)
    ensures var m := Mapper(cols);
      && PlzSource(cols).value in m && m[PlzSource(cols).value] == "plz"
      && EinwohnerSource(cols).value in m && m[EinwohnerSource(cols).value] == "einwohner"
      && LastAmong(cols, LatNames).value in m && m[LastAmong(cols, LatNames).value] == "lat"
      && LastAmong(cols, LonNames).value in m && m[LastAmong(cols, LonNames).value] == "lon"
  {
    var p, e := PlzSource(cols).value, EinwohnerSource(cols).value;
    var la, lo := LastAmong(cols, LatNames).value, LastAmong(cols, LonNames).value;
    SourcesDiffer(cols);
    assert Mapper(cols) == map[][p := "plz"][e := "einwohner"][la := "lat"][lo := "lon"];
    UpdatesOfDistinctKeys(p, e, la, lo);
  }

  /** The postal-code and resident sources are no coordinate headings, and
      the latitude and longitude headings differ. */
  lemma {:induction false} SourcesDiffer(cols: seq<string>)
    requires PlzSource(cols).Some? && EinwohnerSource(cols).Some?
    requires LastAmong(cols, LatNames).Some? && LastAmong(cols, LonNames).Some?
    ensures var p, e := PlzSource(cols).value, EinwohnerSource(cols).value;
      var la, lo := LastAmong(cols, LatNames).value, LastAmong(cols, LonNames).value;
      p != la && p != lo && e != la && e != lo && la != lo
  {
    var p, e := PlzSource(cols).value, EinwohnerSource(cols).value;
    var la, lo := LastAmong(cols, LatNames).value, LastAmong(cols, LonNames).value;
    PlzSourceContainsPlz(cols);
    EinwohnerSourceContainsEinw(cols);
    CoordinateNamesAreNoSources(la);
    CoordinateNamesAreNoSources(lo);
    LatAndLonNamesDiffer(la, lo);
  }

  lemma {:induction false} PlzSourceContainsPlz(cols: seq<string>)
    requires PlzSource(cols).Some?
    ensures Contains(PlzSource(cols).value, "plz")
  {
    if PlzSource(cols).value == "plz" {
      assert "plz" <= PlzSource(cols).value;
    }
  }

  lemma {:induction false} EinwohnerSourceContainsEinw(cols: seq<string>)
    requires EinwohnerSource(cols).Some?
    ensures Contains(EinwohnerSource(cols).value, "einw")
  {
    if EinwohnerSource(cols).value == "einwohner" {
      assert "einw" <= EinwohnerSource(cols).value;
    }
  }

  /** A heading that is a key of the dictionary shows up renamed. */
  lemma {:induction false} RenamedHas(cols: seq<string>, m: map<string, string>, src: string)
    requires src in cols && src in m
    ensures m[src] in HeadingSet(Renamed(cols, m))
  {
    var j :| 0 <= j < |cols| && cols[j] == src;
    assert Renamed(cols, m)[j] == m[src];
  }

  /** When every required column has a source and the postal-code and
      resident sources are different headings, the renamed table passes the
      check. */
  lemma {:induction false} MappedTablePasses(cols: seq<string>)
    requires PlzSource(cols).Some? && EinwohnerSource(cols).Some?
    requires LastAmong(cols, LatNames).Some? && LastAmong(cols, LonNames).Some?
    requires PlzSource(cols) != EinwohnerSource(cols)
    ensures RequiredCheck(Renamed(cols, Mapper(cols))).Ok?
  {
    MapperOfDistinctSources(cols);
    var m := Mapper(cols);
    RenamedHas(cols, m, PlzSource(cols).value);
    RenamedHas(cols, m, EinwohnerSource(cols).value);
    RenamedHas(cols, m, LastAmong(cols, LatNames).value);
    RenamedHas(cols, m, LastAmong(cols, LonNames).value);
  }

  lemma PlzeinwSources()
    ensures PlzSource(["plzeinw", "lat", "lon"]) == Some("plzeinw")
    ensures EinwohnerSource(["plzeinw", "lat", "lon"]) == Some("plzeinw")
  {
    var cols := ["plzeinw", "lat", "lon"];
    assert "plz" <= "plzeinw";
    assert OccursAt("plzeinw", "einw", 3);
    ContainsIffOccurs("plzeinw", "einw");
    assert "plz" !in cols && "einwohner" !in cols;
  }

  lemma PlzeinwCoordinates()
    ensures LastAmong(["plzeinw", "lat", "lon"], LatNames) == Some("lat")
    ensures LastAmong(["plzeinw", "lat", "lon"], LonNames) == Some("lon")
  {
    var cols := ["plzeinw", "lat", "lon"];
    assert cols[2] in LonNames;
    assert cols[2] !in LatNames && cols[..2][1] in LatNames;
    assert LastAmong(cols, LatNames) == LastAmong(cols[..2], LatNames);
  }

  lemma MapperOfPlzeinw()
    ensures Mapper(["plzeinw", "lat", "lon"])
      == map["plzeinw" := "einwohner", "lat" := "lat", "lon" := "lon"]
  {
    PlzeinwSources();
    PlzeinwCoordinates();
    assert Mapper(["plzeinw", "lat", "lon"]) == map[]["plzeinw" := "plz"]["plzeinw" := "einwohner"]["lat" := "lat"]["lon" := "lon"];
  }

  /** When the first heading containing `plz` also contains `einw`, both
      entries land on that heading and the second wins: the table loses its
      postal-code column. */
  lemma SharedSourceLosesPlz()
    ensures RequiredCheck(Renamed(["plzeinw", "lat", "lon"], Mapper(["plzeinw", "lat", "lon"])))
      == Err({"plz"})
  {
    MapperOfPlzeinw();
    RenamedPlzeinw();
    MissingOnlyPlz();
  }

  lemma RenamedPlzeinw()
    ensures Renamed(["plzeinw", "lat", "lon"], map["plzeinw" := "einwohner", "lat" := "lat", "lon" := "lon"])
      == ["einwohner", "lat", "lon"]
  {
  }

  lemma MissingOnlyPlz()
    ensures RequiredCheck(["einwohner", "lat", "lon"]) == Err({"plz"})
  {
    var r := ["einwohner", "lat", "lon"];
    assert HeadingSet(r) == {"einwohner", "lat", "lon"};
    assert Required - HeadingSet(r) == {"plz"};
  }

  /** A table with just `plz` and `einwohner`, as the CSV fallback of the
      main program produces, is always refused for lacking coordinates. */
  lemma CsvFallbackRefused()
    ensures RequiredCheck(Renamed(["plz", "einwohner"], Mapper(["plz", "einwohner"])))
      == Err({"lat", "lon"})
  {
    var cols := ["plz", "einwohner"];
    assert LastAmong(cols, LatNames) == None;
    assert LastAmong(cols, LonNames) == None;
    var m := Mapper(cols);
    assert m == map["plz" := "plz", "einwohner" := "einwohner"];
    var r := Renamed(cols, m);
    assert r == cols;
    assert HeadingSet(r) == {"plz", "einwohner"};
    assert Required - HeadingSet(r) == {"lat", "lon"};
  }

  /** A residents table whose headings the main program renames in place. */
  class ResidentsTable {
    var columns: seq<string>

    constructor(cols: seq<string>)
      ensures columns == cols
    {
      columns := cols;
    }

    /** `rename(columns={c: c.strip().lower()})`. */
    method NormaliseHeadings()
      modifies this
      ensures |columns| == |old(columns)|
      ensures forall j :: 0 <= j < |columns| ==> columns[j] == NormText(old(columns)[j])
    {
      var cols := columns;
      columns := seq(|cols|, j requires 0 <= j < |cols| => NormText(cols[j]));
    }

    /** Builds the dictionary and renames with it, in place. */
    method ApplyMapper()
      modifies this
      ensures columns == Renamed(old(columns), Mapper(old(columns)))
    {
      var m := BuildMapper(columns);
      MapperKeysAreHeadings(columns);
      if m != map[] {
        columns := Renamed(columns, m);
      } else {
        assert Renamed(columns, m) == columns;
      }
    }

    /** The required-column check; the table is unchanged. */
    method CheckRequired() returns (r: Result<(), set<string>>)
      ensures r == RequiredCheck(columns)
    {
      r := RequiredCheck(columns);
    }
  }
}
