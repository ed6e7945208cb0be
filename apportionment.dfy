/** The district fallback for residents (sheet T5): each district's total is
    shared out evenly over the postal codes whose centroid lies in that
    district, as the main program does it and as the residents diagnostics
    script does it. The spatial join itself is an input: each postal-code
    centroid comes with the name of the boundary it fell in, if any. */
module Apportionment {
  import opened Wrappers
  import opened Text
  import opened Cells
  import opened Tables
  import opened Numeric
  import opened ColumnDetection
  import opened Residents

  /** A row of `sjoin(centroids, boundaries, how='left', predicate='within')`. */
  datatype JoinedPlz = JoinedPlz(plz: int, centroid: Point, boundary: Option<string>)

  /** `astype(str).str.strip().str.lower()` of the joined boundary name; a
      centroid in no boundary carries NaN, which prints as `nan`. */
  function JoinedNorm(j: JoinedPlz): string
  {
    match j.boundary
    case None => "nan"
    case Some(n) => NormText(n)
  }

  /** A district row of sheet T5: its name cell and its total cell. */
  datatype District = District(name: Cell, total: Cell)

  function DistrictNorm(d: District): string
  {
    NormText(CellText(d.name))
  }

  /** `t5[[district_col, total_col]].dropna(subset=['Bezirk'])`. */
  function DistrictRows(s: Sheet, dc: nat, tc: nat): (ds: seq<District>)
    requires Rectangular(s) && dc < |s.labels| && tc < |s.labels|
    ensures forall d :: d in ds ==> !d.name.EmptyCell?
  {
    var all := seq(|s.rows|, i requires 0 <= i < |s.rows| => District(s.rows[i][dc], s.rows[i][tc]));
    Filter(all, (d: District) => !d.name.EmptyCell?)
  }

  /** `bezirk_norm` and the cleaned total of each district row. */
  function DistrictTotals(ds: seq<District>, cleaning: TotalCleaning): (dt: seq<(string, int)>)
    ensures |dt| == |ds|
    ensures forall i :: 0 <= i < |ds| ==> dt[i] == (DistrictNorm(ds[i]), TotalValue(ds[i].total, cleaning))
  {
    seq(|ds|, i requires 0 <= i < |ds| => (DistrictNorm(ds[i]), TotalValue(ds[i].total, cleaning)))
  }

  /** `bezirk_norm` of each joined centroid. */
  function JoinedNorms(joined: seq<JoinedPlz>): (norms: seq<string>)
    ensures |norms| == |joined|
    ensures forall i :: 0 <= i < |joined| ==> norms[i] == JoinedNorm(joined[i])
  {
    seq(|joined|, i requires 0 <= i < |joined| => JoinedNorm(joined[i]))
  }

  /** The normalised names of the boundary file. */
  function BoundaryNorms(names: seq<string>): set<string>
  {
    set i | 0 <= i < |names| :: NormText(names[i])
  }

  /** The main program's filter: districts whose name is a boundary name. */
  function KnownOnly(dt: seq<(string, int)>, names: seq<string>): (r: seq<(string, int)>)
    ensures forall p :: p in r <==> p in dt && p.0 in BoundaryNorms(names)
  {
    Filter(dt, (p: (string, int)) => p.0 in BoundaryNorms(names))
  }

  /** `groupby('bezirk_norm').size()` read at one name: how many joined
      centroids carry it. */
  function CountOf(norms: seq<string>, norm: string): nat
  {
    if norms == [] then 0
    else (if norms[0] == norm then 1 else 0) + CountOf(norms[1..], norm)
  }

  /** A counted name is carried by some joined centroid, and every carried
      name is counted. */
  lemma {:induction false} CountOfPositive(norms: seq<string>, norm: string)
    ensures CountOf(norms, norm) > 0 <==> norm in norms
  {
    if norms != [] {
      CountOfPositive(norms[1..], norm);
      assert norms == [norms[0]] + norms[1..];
    }
  }

  /** The per-postal-code share of each district that has postal codes:
      merge the counts in, drop districts without any (`dropna(subset=
      ['n_plz'])`), and divide with pandas' rounding. */
  function Shares(dt: seq<(string, int)>, norms: seq<string>): (r: seq<(string, int)>)
    ensures |r| <= |dt|
    ensures forall i :: 0 <= i < |r| ==> CountOf(norms, r[i].0) > 0
  {
    if dt == [] then []
    else
      var n := CountOf(norms, dt[0].0);
      var rest := Shares(dt[1..], norms);
      if n > 0 then [(dt[0].0, RoundDiv(dt[0].1, n))] + rest else rest
  }

  predicate DistinctNames(dt: seq<(string, int)>) {
    forall i, j :: 0 <= i < j < |dt| ==> dt[i].0 != dt[j].0
  }

  function Names(dt: seq<(string, int)>): set<string>
  {
    set i | 0 <= i < |dt| :: dt[i].0
  }

  /** A district with postal codes gets the rounded quotient of its total by
      their number. */
  lemma {:induction false} ShareOfDistrict(dt: seq<(string, int)>, norms: seq<string>, k: nat)
    requires k < |dt| && CountOf(norms, dt[k].0) > 0 && DistinctNames(dt)
    ensures LookupRight(Shares(dt, norms), dt[k].0) == Some(RoundDiv(dt[k].1, CountOf(norms, dt[k].0)))
  {
    var rest := Shares(dt[1..], norms);
    var n0 := CountOf(norms, dt[0].0);
    if k > 0 {
      ShareOfDistrict(dt[1..], norms, k - 1);
      assert dt[1..][k - 1] == dt[k];
      assert dt[0].0 != dt[k].0;
      if n0 > 0 {
        var head := (dt[0].0, RoundDiv(dt[0].1, n0));
        assert Shares(dt, norms) == [head] + rest;
        assert ([head] + rest)[1..] == rest;
      } else {
        assert Shares(dt, norms) == rest;
      }
    }
  }

  /** A district without postal codes gets no share at all. */
  lemma {:induction false} NoShareWithoutPlz(dt: seq<(string, int)>, norms: seq<string>, norm: string)
    requires CountOf(norms, norm) == 0
    ensures LookupRight(Shares(dt, norms), norm) == None
  {
    var r := Shares(dt, norms);
    forall i | 0 <= i < |r| ensures r[i].0 != norm {
    }
    NotFound(r, norm);
  }

  /** Every share belongs to a district of the input. */
  lemma {:induction false} SharesNamesFromDistricts(dt: seq<(string, int)>, norms: seq<string>)
    ensures Names(Shares(dt, norms)) <= Names(dt)
  {
    if dt != [] {
      SharesNamesFromDistricts(dt[1..], norms);
      var rest := Shares(dt[1..], norms);
      assert Names(dt[1..]) <= Names(dt) by {
        forall x | x in Names(dt[1..]) ensures x in Names(dt) {
          var j :| 0 <= j < |dt[1..]| && dt[1..][j].0 == x;
          assert dt[j + 1].0 == x;
        }
      }
      if CountOf(norms, dt[0].0) > 0 {
        var r := Shares(dt, norms);
        forall x | x in Names(r) ensures x in Names(dt) {
          var j :| 0 <= j < |r| && r[j].0 == x;
          if j > 0 {
            assert r[j] == rest[j - 1];
            assert x in Names(rest);
          } else {
            assert dt[0].0 == x;
          }
        }
      }
    }
  }

  /** Distinct district names give a share table with distinct keys. */
  lemma {:induction false} SharesKeysUnique(dt: seq<(string, int)>, norms: seq<string>)
    requires DistinctNames(dt)
    ensures UniqueKeys(Shares(dt, norms))
  {
    if dt != [] {
      SharesKeysUnique(dt[1..], norms);
      SharesNamesFromDistricts(dt[1..], norms);
      var rest := Shares(dt[1..], norms);
      if CountOf(norms, dt[0].0) > 0 {
        assert dt[0].0 !in Names(dt[1..]) by {
          forall j | 0 <= j < |dt[1..]| ensures dt[1..][j].0 != dt[0].0 {
            assert dt[1..][j] == dt[j + 1];
          }
        }
        var r := Shares(dt, norms);
        forall i, j | 0 <= i < j < |r| ensures r[i].0 != r[j].0 {
          assert r[j] == rest[j - 1];
          if i == 0 {
            assert rest[j - 1].0 in Names(rest);
          } else {
            assert r[i] == rest[i - 1];
          }
        }
      }
    }
  }

  /** A residents row of the fallback: postal code, residents, centroid. */
  type PlzResidents = (int, int, Point)

  /** `joined.merge(shares, on='bezirk_norm', how='left')`, with a missing
      share read as 0 residents. */
  function SpreadShares(joined: seq<JoinedPlz>, shares: seq<(string, int)>): (out: seq<PlzResidents>)
    ensures |out| >= |joined|
  {
    var keyed := seq(|joined|, i requires 0 <= i < |joined| => (JoinedNorm(joined[i]), joined[i]));
    var j2 := LeftJoin(keyed, shares);
    seq(|j2|, i requires 0 <= i < |j2| => (j2[i].1.plz, j2[i].2.GetOr(0), j2[i].1.centroid))
  }

  /** With one share per district name, every joined centroid gives exactly
      one row, in order: its postal code and centroid, and its district's
      share, or 0 when its district has none. */
  lemma {:induction false} SpreadSharesUnique(joined: seq<JoinedPlz>, shares: seq<(string, int)>)
    requires UniqueKeys(shares)
    ensures var out := SpreadShares(joined, shares);
      && |out| == |joined|
      && forall i :: 0 <= i < |joined| ==>
        out[i] == (joined[i].plz, LookupRight(shares, JoinedNorm(joined[i])).GetOr(0), joined[i].centroid)
  {
    var keyed := seq(|joined|, i requires 0 <= i < |joined| => (JoinedNorm(joined[i]), joined[i]));
    LeftJoinUnique(keyed, shares);
  }

  /** The apportionment core of the main program: only districts named in
      the boundary file take part. */
  function MainApportion(ds: seq<District>, names: seq<string>, joined: seq<JoinedPlz>, cleaning: TotalCleaning)
    : seq<PlzResidents>
  {
    SpreadShares(joined, Shares(KnownOnly(DistrictTotals(ds, cleaning), names), JoinedNorms(joined)))
  }

  /** The apportionment core of the diagnostics script: no such filter. */
  function DiagnosticsApportion(ds: seq<District>, joined: seq<JoinedPlz>, cleaning: TotalCleaning)
    : seq<PlzResidents>
  {
    SpreadShares(joined, Shares(DistrictTotals(ds, cleaning), JoinedNorms(joined)))
  }

  // ------------------------------------------------------- conservation

  /** The residents given to the centroids carrying `norm`. */
  function Allotted(norms: seq<string>, shares: seq<(string, int)>, norm: string): int
  {
    if norms == [] then 0
    else
      (if norms[0] == norm then LookupRight(shares, norm).GetOr(0) else 0)
      + Allotted(norms[1..], shares, norm)
  }

  lemma {:induction false} AllottedIsCountTimesShare(norms: seq<string>, shares: seq<(string, int)>, norm: string)
    ensures Allotted(norms, shares, norm) == CountOf(norms, norm) * LookupRight(shares, norm).GetOr(0)
  {
    if norms != [] {
      AllottedIsCountTimesShare(norms[1..], shares, norm);
      var v := LookupRight(shares, norm).GetOr(0);
      var m := CountOf(norms[1..], norm);
      if norms[0] == norm {
        MulSucc(m, v);
      }
    }
  }

  /** A district keeps its total up to rounding: the residents spread over
      its postal codes add up to the district total within half the number
      of postal codes, and a tie is settled to an even share. */
  lemma {:induction false} DistrictTotalKept(dt: seq<(string, int)>, norms: seq<string>, k: nat)
    requires k < |dt| && CountOf(norms, dt[k].0) > 0 && DistinctNames(dt)
    ensures var n: int := CountOf(norms, dt[k].0);
      var a := Allotted(norms, Shares(dt, norms), dt[k].0);
      -n <= 2 * (a - dt[k].1) <= n
  {
    ShareOfDistrict(dt, norms, k);
    RoundDivSpec(dt[k].1, CountOf(norms, dt[k].0));
    AllottedIsCountTimesShare(norms, Shares(dt, norms), dt[k].0);
  }

  /** A centroid whose district has no share gets nothing: one that fell in
      no boundary, or in a district of the boundary file missing from the
      sheet. */
  lemma {:induction false} UnmatchedGetsZero(joined: seq<JoinedPlz>, shares: seq<(string, int)>, i: nat)
    requires UniqueKeys(shares) && i < |joined|
    requires forall k :: 0 <= k < |shares| ==> shares[k].0 != JoinedNorm(joined[i])
    ensures SpreadShares(joined, shares)[i].1 == 0
  {
    SpreadSharesUnique(joined, shares);
    NotFound(shares, JoinedNorm(joined[i]));
  }

  // ------------------------------------------- main against diagnostics

  /** The boundary names the join carries are names of the boundary file. */
  predicate JoinFromBoundaries(joined: seq<JoinedPlz>, names: seq<string>) {
    forall i :: 0 <= i < |joined| && joined[i].boundary.Some? ==>
      NormText(joined[i].boundary.value) in BoundaryNorms(names)
  }

  lemma {:induction false} JoinedNormsKnown(joined: seq<JoinedPlz>, names: seq<string>)
    requires JoinFromBoundaries(joined, names)
    ensures forall x :: x in JoinedNorms(joined) ==> x in BoundaryNorms(names) || x == "nan"
  {
    var norms := JoinedNorms(joined);
    forall x | x in norms ensures x in BoundaryNorms(names) || x == "nan" {
      var i :| 0 <= i < |norms| && norms[i] == x;
    }
  }

  /** Filtering by boundary names removes only districts that have no
      postal codes anyway, so it changes no share, unless a district is
      named `nan` and some centroid fell in no boundary. */
  lemma {:induction false} FilterKeepsShares(dt: seq<(string, int)>, names: seq<string>, norms: seq<string>)
    requires forall x :: x in norms ==> x in BoundaryNorms(names) || x == "nan"
    requires forall p :: p in dt ==> p.0 != "nan" || "nan" in BoundaryNorms(names)
    ensures Shares(KnownOnly(dt, names), norms) == Shares(dt, norms)
  {
    if dt != [] {
      var known := (p: (string, int)) => p.0 in BoundaryNorms(names);
      assert forall p :: p in dt[1..] ==> p in dt;
      FilterKeepsShares(dt[1..], names, norms);
      assert KnownOnly(dt, names) == Filter(dt, known);
      assert KnownOnly(dt[1..], names) == Filter(dt[1..], known);
      if !known(dt[0]) {
        assert Filter(dt, known) == Filter(dt[1..], known);
        CountOfPositive(norms, dt[0].0);
        assert dt[0] in dt;
      } else {
        assert Filter(dt, known) == [dt[0]] + Filter(dt[1..], known);
        assert ([dt[0]] + Filter(dt[1..], known))[1..] == Filter(dt[1..], known);
      }
    }
  }

  /** Hence the main program and the diagnostics script apportion alike. */
  lemma {:induction false} MainAgreesWithDiagnostics(ds: seq<District>, names: seq<string>, joined: seq<JoinedPlz>, cleaning: TotalCleaning)
    requires JoinFromBoundaries(joined, names)
    requires forall d :: d in ds ==> DistrictNorm(d) != "nan" || "nan" in BoundaryNorms(names)
    ensures MainApportion(ds, names, joined, cleaning) == DiagnosticsApportion(ds, joined, cleaning)
  {
    JoinedNormsKnown(joined, names);
    var dt := DistrictTotals(ds, cleaning);
    forall p | p in dt ensures p.0 != "nan" || "nan" in BoundaryNorms(names) {
      var i :| 0 <= i < |dt| && dt[i] == p;
      assert ds[i] in ds;
    }
    FilterKeepsShares(dt, names, JoinedNorms(joined));
  }

  /** Where they part: a district named `nan` collects the centroids that
      fell in no boundary in the diagnostics script, not in the main program. */
  lemma NanDistrictDiffers()
    ensures var dt := [("nan", 7)];
      var norms := ["nan"];
      && Shares(KnownOnly(dt, []), norms) == []
      && Shares(dt, norms) == [("nan", 7)]
  {
    var dt := [("nan", 7)];
    assert CountOf(["nan"], "nan") == 1;
    assert RoundDiv(7, 1) == 7;
    assert KnownOnly(dt, []) == [];
  }

  // ---------------------------------------------------- whole fallbacks

  /** The T5 branch of the main program on a sheet read with header row 2:
      choose the columns, and when a total column exists, apportion; `None`
      where the program leaves the residents table unset. */
  function MainT5(s: Sheet, names: seq<string>, joined: seq<JoinedPlz>): (r: Option<seq<PlzResidents>>)
    requires Rectangular(s)
    ensures r.Some? <==> T5DistrictColumn(s.labels).Some? && T5TotalColumn(s).Some?
  {
    match (T5DistrictColumn(s.labels), T5TotalColumn(s))
    case (Some(dc), Some(tc)) => Some(MainApportion(DistrictRows(s, dc, tc), names, joined, DigitsOnly))
    case _ => None
  }

  /** The diagnostics script's version: the same columns, no filter. */
  function DiagnosticsT5(s: Sheet, joined: seq<JoinedPlz>): (r: Option<seq<PlzResidents>>)
    requires Rectangular(s)
    ensures r.Some? <==> T5DistrictColumn(s.labels).Some? && T5TotalColumn(s).Some?
  {
    match (T5DistrictColumn(s.labels), T5TotalColumn(s))
    case (Some(dc), Some(tc)) => Some(DiagnosticsApportion(DistrictRows(s, dc, tc), joined, DigitsOnly))
    case _ => None
  }
}
