/** The dataframe pipeline of the station registry and of the residents
    table: the Berlin and postal-code range filters, the decimal-comma
    repair of coordinates, sorting by postal code and attaching the postal
    area's geometry, and counting stations per postal code. */
module StationPipeline {
  import opened Wrappers
  import opened Text
  import opened Cells
  import opened Tables

  /** A postal area's outline, kept as its well-known-text form. */
  datatype Geometry = Geometry(wkt: string)

  /** A row of the postal-area file: postal code and geometry (missing when
      the cell is empty). */
  type GeoRow = (int, Option<Geometry>)

  predicate UniquePlz(geo: seq<GeoRow>) {
    forall i, j :: 0 <= i < j < |geo| ==> geo[i].0 != geo[j].0
  }

  /** The postal-area rows keyed by their postal code read as a float, the
      form the filtered registry's `PLZ` column has after `to_numeric`. */
  function GeoKeyed(geo: seq<GeoRow>): (r: seq<(real, GeoRow)>)
    ensures |r| == |geo|
    ensures forall i :: 0 <= i < |geo| ==> r[i] == (geo[i].0 as real, geo[i])
  {
    seq(|geo|, i requires 0 <= i < |geo| => (geo[i].0 as real, geo[i]))
  }

  predicate AscendingBy<L>(s: seq<(real, L)>) {
    forall i, j :: 0 <= i < j < |s| ==> s[i].0 <= s[j].0
  }

  predicate AscendingPlz<L>(s: seq<(int, L, Geometry)>) {
    forall i, j :: 0 <= i < j < |s| ==> s[i].0 <= s[j].0
  }

  /** `sort_values(by='PLZ')`: the rows in ascending postal-code order. */
  function SortByPlz<L(!new)>(rows: seq<(real, L)>): (r: seq<(real, L)>)
    ensures AscendingBy(r)
    ensures multiset(r) == multiset(rows)
    ensures |r| == |rows|
  {
    var key := (x: (real, L)) => -x.0;
    var r := SortDesc(rows, key);
    assert forall i, j :: 0 <= i < j < |r| ==> key(r[i]) >= key(r[j]);
    r
  }

  /** `dropna(subset=['geometry'])` after the merge: the rows that found a
      postal area with a geometry, carrying that area's postal code. */
  function WithGeometry<L>(joined: seq<(real, L, Option<GeoRow>)>): (out: seq<(int, L, Geometry)>)
    ensures |out| <= |joined|
  {
    if joined == [] then []
    else
      var t := joined[0];
      var rest := WithGeometry(joined[1..]);
      if t.2.Some? && t.2.value.1.Some? then [(t.2.value.0, t.1, t.2.value.1.value)] + rest else rest
  }

  /** `sort_by_plz_add_geometry`: sort by postal code, merge the postal-area
      rows on it (left join), keep the rows with a geometry. */
  function AddGeometry<L(!new)>(rows: seq<(real, L)>, geo: seq<GeoRow>): seq<(int, L, Geometry)>
  {
    WithGeometry(LeftJoin(SortByPlz(rows), GeoKeyed(geo)))
  }

  lemma {:induction false} GeoKeyedUnique(geo: seq<GeoRow>)
    requires UniquePlz(geo)
    ensures UniqueKeys(GeoKeyed(geo))
  {
  }

  /** Rows of the filtered output come from joined rows whose match has a
      geometry, and keep their order. */
  lemma {:induction false} WithGeometryRows<L>(joined: seq<(real, L, Option<GeoRow>)>)
    ensures forall x :: x in WithGeometry(joined) <==>
      exists i :: 0 <= i < |joined| && joined[i].2.Some? && joined[i].2.value.1.Some?
        && x == (joined[i].2.value.0, joined[i].1, joined[i].2.value.1.value)
  {
    if joined != [] {
      WithGeometryRows(joined[1..]);
      var rest := WithGeometry(joined[1..]);
      forall x
        ensures x in WithGeometry(joined) <==>
          exists i :: 0 <= i < |joined| && joined[i].2.Some? && joined[i].2.value.1.Some?
            && x == (joined[i].2.value.0, joined[i].1, joined[i].2.value.1.value)
      {
        if x in rest {
          var i :| 0 <= i < |joined[1..]| && joined[1..][i].2.Some? && joined[1..][i].2.value.1.Some?
            && x == (joined[1..][i].2.value.0, joined[1..][i].1, joined[1..][i].2.value.1.value);
          assert joined[i + 1] == joined[1..][i];
        }
        if exists i :: 0 <= i < |joined| && joined[i].2.Some? && joined[i].2.value.1.Some?
            && x == (joined[i].2.value.0, joined[i].1, joined[i].2.value.1.value) {
          var i :| 0 <= i < |joined| && joined[i].2.Some? && joined[i].2.value.1.Some?
            && x == (joined[i].2.value.0, joined[i].1, joined[i].2.value.1.value);
          if i > 0 {
            assert joined[1..][i - 1] == joined[i];
          }
        }
      }
    }
  }

  /** A lower bound on the keys of matched rows bounds the postal codes of
      the output. */
  lemma {:induction false} WithGeometryAbove<L>(joined: seq<(real, L, Option<GeoRow>)>, b: real)
    requires forall i :: 0 <= i < |joined| ==> b <= joined[i].0
    requires forall i :: 0 <= i < |joined| && joined[i].2.Some? ==> joined[i].2.value.0 as real == joined[i].0
    ensures forall j :: 0 <= j < |WithGeometry(joined)| ==> b <= WithGeometry(joined)[j].0 as real
  {
    if joined != [] {
      WithGeometryAbove(joined[1..], b);
    }
  }

  /** When every matched row's postal code agrees with its key and the keys
      ascend, the output ascends in postal code. */
  lemma {:induction false} WithGeometryAscending<L>(joined: seq<(real, L, Option<GeoRow>)>)
    requires forall i, j :: 0 <= i < j < |joined| ==> joined[i].0 <= joined[j].0
    requires forall i :: 0 <= i < |joined| && joined[i].2.Some? ==> joined[i].2.value.0 as real == joined[i].0
    ensures AscendingPlz(WithGeometry(joined))
  {
    if joined != [] {
      WithGeometryAscending(joined[1..]);
      var t := joined[0];
      var rest := WithGeometry(joined[1..]);
      if t.2.Some? && t.2.value.1.Some? {
        WithGeometryAbove(joined[1..], t.0);
        var out := [(t.2.value.0, t.1, t.2.value.1.value)] + rest;
        forall i, j | 0 <= i < j < |out| ensures out[i].0 <= out[j].0 {
          if i > 0 {
            assert out[i] == rest[i - 1];
          }
          assert out[j] == rest[j - 1];
        }
      }
    }
  }

  lemma {:induction false} LookupOfMember<K, R>(right: seq<(K, R)>, k: K, v: R)
    requires UniqueKeys(right) && (k, v) in right
    ensures LookupRight(right, k) == Some(v)
  {
    if right[0] != (k, v) {
      assert (k, v) in right[1..];
      LookupOfMember(right[1..], k, v);
      assert right[0].0 != k by {
        var j :| 0 <= j < |right[1..]| && right[1..][j] == (k, v);
        assert right[j + 1] == (k, v);
      }
    }
  }

  /** The joined rows: the sorted rows each with the postal-area row of its
      postal code. */
  function Joined<L(!new)>(rows: seq<(real, L)>, geo: seq<GeoRow>): seq<(real, L, Option<GeoRow>)>
  {
    LeftJoin(SortByPlz(rows), GeoKeyed(geo))
  }

  lemma {:induction false} JoinedKeysAgree<L(!new)>(rows: seq<(real, L)>, geo: seq<GeoRow>)
    ensures var joined := Joined(rows, geo);
      forall i :: 0 <= i < |joined| && joined[i].2.Some? ==> joined[i].2.value.0 as real == joined[i].0
  {
    var joined := Joined(rows, geo);
    var keyed := GeoKeyed(geo);
    LeftJoinRowsFromInputs(SortByPlz(rows), keyed);
    forall i | 0 <= i < |joined| && joined[i].2.Some?
      ensures joined[i].2.value.0 as real == joined[i].0
    {
      assert joined[i] in joined;
      var k :| 0 <= k < |keyed| && keyed[k] == (joined[i].0, joined[i].2.value);
    }
  }

  lemma {:induction false} JoinedOneToOne<L(!new)>(rows: seq<(real, L)>, geo: seq<GeoRow>)
    requires UniquePlz(geo)
    ensures var sorted := SortByPlz(rows);
      var joined := Joined(rows, geo);
      && |joined| == |sorted|
      && forall i :: 0 <= i < |sorted| ==>
        joined[i] == (sorted[i].0, sorted[i].1, LookupRight(GeoKeyed(geo), sorted[i].0))
  {
    GeoKeyedUnique(geo);
    LeftJoinUnique(SortByPlz(rows), GeoKeyed(geo));
  }

  lemma {:induction false} AddGeometryOrdered<L(!new)>(rows: seq<(real, L)>, geo: seq<GeoRow>)
    requires UniquePlz(geo)
    ensures |AddGeometry(rows, geo)| <= |rows|
    ensures AscendingPlz(AddGeometry(rows, geo))
  {
    var sorted := SortByPlz(rows);
    var joined := Joined(rows, geo);
    JoinedOneToOne(rows, geo);
    JoinedKeysAgree(rows, geo);
    assert forall i, j :: 0 <= i < j < |joined| ==> joined[i].0 <= joined[j].0 by {
      forall i, j | 0 <= i < j < |joined| ensures joined[i].0 <= joined[j].0 {
        assert joined[i].0 == sorted[i].0 && joined[j].0 == sorted[j].0;
      }
    }
    WithGeometryAscending(joined);
  }

  lemma {:induction false} JoinedRowSound<L(!new)>(rows: seq<(real, L)>, geo: seq<GeoRow>, t: (real, L, Option<GeoRow>))
    requires t in Joined(rows, geo) && t.2.Some?
    ensures (t.0, t.1) in rows && t.2.value in geo && t.2.value.0 as real == t.0
  {
    var sorted := SortByPlz(rows);
    var keyed := GeoKeyed(geo);
    LeftJoinRowsFromInputs(sorted, keyed);
    assert (t.0, t.1) in multiset(rows);
    var k :| 0 <= k < |keyed| && keyed[k] == (t.0, t.2.value);
    assert geo[k] in geo;
  }

  lemma {:induction false} AddGeometrySound<L(!new)>(rows: seq<(real, L)>, geo: seq<GeoRow>)
    ensures forall x :: x in AddGeometry(rows, geo) ==> (x.0 as real, x.1) in rows && (x.0, Some(x.2)) in geo
  {
    var joined := Joined(rows, geo);
    WithGeometryRows(joined);
    assert AddGeometry(rows, geo) == WithGeometry(joined);
    forall x | x in AddGeometry(rows, geo)
      ensures (x.0 as real, x.1) in rows && (x.0, Some(x.2)) in geo
    {
      assert x in WithGeometry(joined);
      var i :| 0 <= i < |joined| && joined[i].2.Some? && joined[i].2.value.1.Some?
        && x == (joined[i].2.value.0, joined[i].1, joined[i].2.value.1.value);
      JoinedRowSound(rows, geo, joined[i]);
    }
  }

  lemma {:induction false} AddGeometryComplete<L(!new)>(rows: seq<(real, L)>, geo: seq<GeoRow>)
    requires UniquePlz(geo)
    ensures forall p: int, l, g :: (p as real, l) in rows && (p, Some(g)) in geo ==> (p, l, g) in AddGeometry(rows, geo)
  {
    var sorted := SortByPlz(rows);
    var keyed := GeoKeyed(geo);
    var joined := Joined(rows, geo);
    JoinedOneToOne(rows, geo);
    WithGeometryRows(joined);
    GeoKeyedUnique(geo);
    forall p: int, l, g | (p as real, l) in rows && (p, Some(g)) in geo
      ensures (p, l, g) in AddGeometry(rows, geo)
    {
      assert (p as real, l) in multiset(sorted);
      var i :| 0 <= i < |sorted| && sorted[i] == (p as real, l);
      var k :| 0 <= k < |geo| && geo[k] == (p, Some(g));
      assert keyed[k] == (p as real, (p, Some(g)));
      LookupOfMember(keyed, p as real, (p, Some(g)));
      assert joined[i] == (p as real, l, Some((p, Some(g))));
    }
  }

  /** With one postal-area row per postal code, adding geometry never adds
      rows; the rows come out in ascending postal-code order; each row comes
      from an input row and carries the geometry of its postal code; and
      every input row whose postal code has a geometry is kept. */
  lemma {:induction false} AddGeometrySpec<L(!new)>(rows: seq<(real, L)>, geo: seq<GeoRow>)
    requires UniquePlz(geo)
    ensures var out := AddGeometry(rows, geo);
      && |out| <= |rows|
      && AscendingPlz(out)
      && (forall x :: x in out ==> (x.0 as real, x.1) in rows && (x.0, Some(x.2)) in geo)
      && (forall p: int, l, g :: (p as real, l) in rows && (p, Some(g)) in geo ==> (p, l, g) in out)
  {
    AddGeometryOrdered(rows, geo);
    AddGeometrySound(rows, geo);
    AddGeometryComplete(rows, geo);
  }

  lemma {:induction false} LookupRightMember<K, R>(right: seq<(K, R)>, k: K)
    requires LookupRight(right, k).Some?
    ensures (k, LookupRight(right, k).value) in right
  {
    if right[0].0 != k {
      LookupRightMember(right[1..], k);
    }
  }

  // ---------------------------------------------------------- registry

  /** A row of the charging-station registry: postal code, federal state,
      latitude, longitude and rated power, as read. */
  datatype RegistryRow = RegistryRow(plz: Cell, land: Cell, lat: Cell, lon: Cell, kw: Cell)

  /** The registry row after `to_numeric` of the postal code and the
      decimal-comma repair of the coordinates. */
  datatype StationRow = StationRow(plz: Option<real>, land: Cell, lat: string, lon: string, kw: Cell)

  /** `astype(str).str.replace(',', '.')`. */
  function DecimalPoint(c: Cell): (s: string)
    ensures ',' !in s
    ensures |s| == |CellText(c)|
    ensures forall i :: 0 <= i < |s| && CellText(c)[i] != ',' ==> s[i] == CellText(c)[i]
  {
    ReplaceChar(CellText(c), ',', '.')
  }

  function NormaliseStation(r: RegistryRow): StationRow
  {
    StationRow(ToNumeric(r.plz), r.land, DecimalPoint(r.lat), DecimalPoint(r.lon), r.kw)
  }

  /** The registry filter: Berlin, and a postal code strictly between 10115
      and 14200 (a missing one compares false). */
  predicate StationInRange(r: StationRow) {
    r.land == TextCell("Berlin") && r.plz.Some? && 10115.0 < r.plz.value < 14200.0
  }

  /** The registry rows after normalisation and the filter, each keyed by
      its postal code. */
  function KeyedStations(rows: seq<RegistryRow>): seq<(real, StationRow)>
  {
    var norm := seq(|rows|, i requires 0 <= i < |rows| => NormaliseStation(rows[i]));
    var kept := Filter(norm, StationInRange);
    assert forall i :: 0 <= i < |kept| ==> kept[i] in kept;
    seq(|kept|, i requires 0 <= i < |kept| => (kept[i].plz.value, kept[i]))
  }

  /** `preprop_lstat`. */
  function PreprocessStations(rows: seq<RegistryRow>, geo: seq<GeoRow>): seq<(int, StationRow, Geometry)>
  {
    AddGeometry(KeyedStations(rows), geo)
  }

  /** The keyed rows are exactly the normalised rows that pass the filter,
      each under its own postal code. */
  lemma {:induction false} KeyedStationsSpec(rows: seq<RegistryRow>)
    ensures |KeyedStations(rows)| <= |rows|
    ensures forall x :: x in KeyedStations(rows) ==>
      StationInRange(x.1) && x.0 == x.1.plz.value && exists r :: r in rows && NormaliseStation(r) == x.1
    ensures forall r :: r in rows && StationInRange(NormaliseStation(r)) ==>
      (NormaliseStation(r).plz.value, NormaliseStation(r)) in KeyedStations(rows)
  {
    var norm := seq(|rows|, i requires 0 <= i < |rows| => NormaliseStation(rows[i]));
    var kept := Filter(norm, StationInRange);
    var keyed := KeyedStations(rows);
    assert forall i :: 0 <= i < |kept| ==> kept[i] in kept;
    forall x | x in keyed
      ensures StationInRange(x.1) && x.0 == x.1.plz.value && exists r :: r in rows && NormaliseStation(r) == x.1
    {
      var i :| 0 <= i < |keyed| && keyed[i] == x;
      var j :| 0 <= j < |norm| && norm[j] == kept[i];
      assert rows[j] in rows;
    }
    forall r | r in rows && StationInRange(NormaliseStation(r))
      ensures (NormaliseStation(r).plz.value, NormaliseStation(r)) in keyed
    {
      var j :| 0 <= j < |rows| && rows[j] == r;
      assert norm[j] == NormaliseStation(r);
      assert NormaliseStation(r) in kept;
      var i :| 0 <= i < |kept| && kept[i] == NormaliseStation(r);
      assert keyed[i] == (NormaliseStation(r).plz.value, NormaliseStation(r));
    }
  }

  /** Every station the registry pipeline keeps is in Berlin, has a postal
      code strictly between 10115 and 14200 (so 10115 itself is dropped) that
      has a geometry, has coordinates without a decimal comma, and comes
      from a registry row; and no station is added. */
  lemma {:induction false} PreprocessStationsSound(rows: seq<RegistryRow>, geo: seq<GeoRow>)
    requires UniquePlz(geo)
    ensures var out := PreprocessStations(rows, geo);
      && |out| <= |rows|
      && AscendingPlz(out)
      && forall x :: x in out ==>
        && x.1.land == TextCell("Berlin")
        && 10115 < x.0 < 14200
        && (x.0, Some(x.2)) in geo
        && ',' !in x.1.lat && ',' !in x.1.lon
        && exists r :: r in rows && NormaliseStation(r) == x.1
  {
    var keyed := KeyedStations(rows);
    KeyedStationsSpec(rows);
    AddGeometrySpec(keyed, geo);
    var out := AddGeometry(keyed, geo);
    forall x | x in out
      ensures && x.1.land == TextCell("Berlin")
        && 10115 < x.0 < 14200
        && ',' !in x.1.lat && ',' !in x.1.lon
        && exists r :: r in rows && NormaliseStation(r) == x.1
    {
      assert (x.0 as real, x.1) in keyed;
      var r :| r in rows && NormaliseStation(r) == x.1;
    }
  }

  /** Every Berlin registry row with a postal code strictly between 10115
      and 14200 that has a geometry is kept, with that geometry. */
  lemma {:induction false} PreprocessStationsComplete(rows: seq<RegistryRow>, geo: seq<GeoRow>)
    requires UniquePlz(geo)
    ensures var out := PreprocessStations(rows, geo);
      forall r, p: int, g ::
        (r in rows && StationInRange(NormaliseStation(r)) && NormaliseStation(r).plz == Some(p as real)
         && (p, Some(g)) in geo) ==> (p, NormaliseStation(r), g) in out
  {
    var keyed := KeyedStations(rows);
    KeyedStationsSpec(rows);
    AddGeometryComplete(keyed, geo);
  }

  /** The registry pipeline keeps exactly the Berlin rows with a postal
      code strictly between 10115 and 14200 that has a geometry, in
      ascending postal-code order, with their coordinates repaired. */
  lemma {:induction false} PreprocessStationsSpec(rows: seq<RegistryRow>, geo: seq<GeoRow>)
    requires UniquePlz(geo)
    ensures var out := PreprocessStations(rows, geo);
      && |out| <= |rows|
      && AscendingPlz(out)
      && forall x :: x in out ==>
        && x.1.land == TextCell("Berlin")
        && 10115 < x.0 < 14200
        && (x.0, Some(x.2)) in geo
        && ',' !in x.1.lat && ',' !in x.1.lon
        && exists r :: r in rows && NormaliseStation(r) == x.1
    ensures var out := PreprocessStations(rows, geo);
      forall r, p: int, g ::
        (r in rows && StationInRange(NormaliseStation(r)) && NormaliseStation(r).plz == Some(p as real)
         && (p, Some(g)) in geo) ==> (p, NormaliseStation(r), g) in out
  {
    PreprocessStationsSound(rows, geo);
    PreprocessStationsComplete(rows, geo);
  }

  /** A station numbered 10115 in Berlin never survives the registry filter. */
  lemma {:induction false} LowestBerlinCodeDropped(r: StationRow)
    requires r.plz == Some(10115.0)
    ensures !StationInRange(r)
  {
  }

  // ------------------------------------------------------------ counting

  /** A row of `count_plz_occurrences`. */
  datatype PlzStations = PlzStations(plz: int, number: nat, geometry: Geometry)

  function CountRows<L>(stations: seq<(int, L, Geometry)>): seq<(int, int, Geometry)>
  {
    seq(|stations|, i requires 0 <= i < |stations| => (stations[i].0, 1, stations[i].2))
  }

  /** `groupby('PLZ').agg(Number=('PLZ', 'count'), geometry=('geometry', 'first'))`. */
  function CountPlzOccurrences<L>(stations: seq<(int, L, Geometry)>): seq<PlzStations>
  {
    var gs := GroupBy(CountRows(stations));
    seq(|gs|, i requires 0 <= i < |gs| => PlzStations(gs[i].key, gs[i].count, gs[i].first))
  }

  function Numbers(cs: seq<PlzStations>): seq<int>
  {
    seq(|cs|, i requires 0 <= i < |cs| => cs[i].number)
  }

  function StationsAt<L>(stations: seq<(int, L, Geometry)>, p: int): nat
  {
    if stations == [] then 0
    else
      var n := |stations| - 1;
      StationsAt(stations[..n], p) + (if stations[n].0 == p then 1 else 0)
  }

  /** Counting gives one row per distinct postal code in ascending order,
      each with the number of stations at that postal code and the geometry
      of the first of them, and the numbers add up to the number of stations. */
  lemma {:induction false} CountPlzOccurrencesSpec<L>(stations: seq<(int, L, Geometry)>)
    ensures var cs := CountPlzOccurrences(stations);
      && (forall i, j :: 0 <= i < j < |cs| ==> cs[i].plz < cs[j].plz)
      && (set i | 0 <= i < |cs| :: cs[i].plz) == (set j | 0 <= j < |stations| :: stations[j].0)
      && (forall i :: 0 <= i < |cs| ==> cs[i].number == StationsAt(stations, cs[i].plz) > 0)
      && (forall i :: 0 <= i < |cs| ==> Some(cs[i].geometry) == FirstWith(CountRows(stations), cs[i].plz))
      && SumInt(Numbers(cs)) == |stations|
  {
    CountsOrderedByPlz(stations);
    CountsCoverPlz(stations);
    CountsPerPlz(stations);
    CountsAddUp(stations);
  }

  lemma {:induction false} CountsOrderedByPlz<L>(stations: seq<(int, L, Geometry)>)
    ensures var cs := CountPlzOccurrences(stations);
      forall i, j :: 0 <= i < j < |cs| ==> cs[i].plz < cs[j].plz
  {
    GroupBySpec(CountRows(stations));
  }

  lemma {:induction false} CountsCoverPlz<L>(stations: seq<(int, L, Geometry)>)
    ensures var cs := CountPlzOccurrences(stations);
      (set i | 0 <= i < |cs| :: cs[i].plz) == (set j | 0 <= j < |stations| :: stations[j].0)
  {
    var rows := CountRows(stations);
    var gs := GroupBy(rows);
    var cs := CountPlzOccurrences(stations);
    GroupByKeys(rows);
    assert (set i | 0 <= i < |cs| :: cs[i].plz) == GroupKeys(gs) by {
      forall k | k in GroupKeys(gs) ensures k in (set i | 0 <= i < |cs| :: cs[i].plz) {
        var i :| 0 <= i < |gs| && gs[i].key == k;
        assert cs[i].plz == k;
      }
    }
    assert RowKeys(rows) == (set j | 0 <= j < |stations| :: stations[j].0) by {
      forall k | k in (set j | 0 <= j < |stations| :: stations[j].0) ensures k in RowKeys(rows) {
        var j :| 0 <= j < |stations| && stations[j].0 == k;
        assert rows[j].0 == k;
      }
    }
  }

  lemma {:induction false} CountsPerPlz<L>(stations: seq<(int, L, Geometry)>)
    ensures var cs := CountPlzOccurrences(stations);
      && (forall i :: 0 <= i < |cs| ==> cs[i].number == StationsAt(stations, cs[i].plz) > 0)
      && (forall i :: 0 <= i < |cs| ==> Some(cs[i].geometry) == FirstWith(CountRows(stations), cs[i].plz))
  {
    var rows := CountRows(stations);
    var gs := GroupBy(rows);
    var cs := CountPlzOccurrences(stations);
    GroupBySpec(rows);
    forall i | 0 <= i < |cs|
      ensures cs[i].number == StationsAt(stations, cs[i].plz) > 0
      ensures Some(cs[i].geometry) == FirstWith(rows, cs[i].plz)
    {
      LookupOfSorted(gs, i);
      CountKeyIsStationsAt(stations, cs[i].plz);
    }
  }

  lemma {:induction false} CountsAddUp<L>(stations: seq<(int, L, Geometry)>)
    ensures SumInt(Numbers(CountPlzOccurrences(stations))) == |stations|
  {
    var rows := CountRows(stations);
    var gs := GroupBy(rows);
    var cs := CountPlzOccurrences(stations);
    GroupBySpec(rows);
    SumCountsIsSumInt(gs);
    assert Numbers(cs) == seq(|gs|, i requires 0 <= i < |gs| => gs[i].count as int);
  }

  lemma {:induction false} SumCountsIsSumInt<G>(gs: seq<Group<G>>)
    ensures SumCounts(gs) == SumInt(seq(|gs|, i requires 0 <= i < |gs| => gs[i].count as int))
  {
    var cs := seq(|gs|, i requires 0 <= i < |gs| => gs[i].count as int);
    if gs != [] {
      SumCountsIsSumInt(gs[1..]);
      assert cs == [gs[0].count as int] + seq(|gs[1..]|, i requires 0 <= i < |gs[1..]| => gs[1..][i].count as int);
      SumIntAppend([gs[0].count as int], cs[1..]);
    }
  }

  lemma {:induction false} CountKeyIsStationsAt<L>(stations: seq<(int, L, Geometry)>, p: int)
    ensures CountKey(CountRows(stations), p) == StationsAt(stations, p)
  {
    if stations != [] {
      var n := |stations| - 1;
      CountKeyIsStationsAt(stations[..n], p);
      assert CountRows(stations)[..n] == CountRows(stations[..n]);
    }
  }

  // --------------------------------------------------------- residents

  /** A residents row handed to `preprop_resid`: postal code (missing for an
      unreadable one), residents, and the printed coordinates. */
  datatype ResidentRow = ResidentRow(plz: Option<int>, einwohner: int, lat: string, lon: string)

  /** The residents filter: a postal code strictly between 10000 and 14200. */
  predicate ResidentInRange(r: ResidentRow) {
    r.plz.Some? && 10000 < r.plz.value < 14200
  }

  function RepairResident(r: ResidentRow): ResidentRow
  {
    r.(lat := ReplaceChar(r.lat, ',', '.'), lon := ReplaceChar(r.lon, ',', '.'))
  }

  /** `preprop_resid`. */
  function PreprocessResidents(rows: seq<ResidentRow>, geo: seq<GeoRow>): seq<(int, ResidentRow, Geometry)>
  {
    var fixed := seq(|rows|, i requires 0 <= i < |rows| => RepairResident(rows[i]));
    var kept := Filter(fixed, ResidentInRange);
    assert forall i :: 0 <= i < |kept| ==> kept[i] in kept;
    var keyed := seq(|kept|, i requires 0 <= i < |kept| => (kept[i].plz.value as real, kept[i]));
    AddGeometry(keyed, geo)
  }

  /** Every residents row kept has a postal code strictly between 10000 and
      14200 with a geometry, and every in-range row whose postal code has a
      geometry is kept. */
  lemma {:induction false} PreprocessResidentsSpec(rows: seq<ResidentRow>, geo: seq<GeoRow>)
    requires UniquePlz(geo)
    ensures var out := PreprocessResidents(rows, geo);
      && |out| <= |rows|
      && AscendingPlz(out)
      && (forall x :: x in out ==> 10000 < x.0 < 14200 && x.1.plz == Some(x.0) && (x.0, Some(x.2)) in geo)
      && (forall r, g :: r in rows && ResidentInRange(r) && (r.plz.value, Some(g)) in geo ==>
            (r.plz.value, RepairResident(r), g) in out)
  {
    var fixed := seq(|rows|, i requires 0 <= i < |rows| => RepairResident(rows[i]));
    var kept := Filter(fixed, ResidentInRange);
    assert forall i :: 0 <= i < |kept| ==> kept[i] in kept;
    var keyed := seq(|kept|, i requires 0 <= i < |kept| => (kept[i].plz.value as real, kept[i]));
    AddGeometrySpec(keyed, geo);
    var out := AddGeometry(keyed, geo);
    forall x | x in out
      ensures 10000 < x.0 < 14200 && x.1.plz == Some(x.0)
    {
      var i :| 0 <= i < |keyed| && keyed[i] == (x.0 as real, x.1);
      assert kept[i] in kept;
    }
    forall r, g | r in rows && ResidentInRange(r) && (r.plz.value, Some(g)) in geo
      ensures (r.plz.value, RepairResident(r), g) in out
    {
      var j :| 0 <= j < |rows| && rows[j] == r;
      assert fixed[j] == RepairResident(r);
      assert RepairResident(r) in kept;
      var i :| 0 <= i < |kept| && kept[i] == RepairResident(r);
      assert keyed[i] == (r.plz.value as real, RepairResident(r));
    }
  }

  /** The residents filter admits 10115, which the registry filter drops. */
  lemma RangesDisagreeAt10115()
    ensures ResidentInRange(ResidentRow(Some(10115), 0, "", ""))
    ensures !StationInRange(StationRow(Some(10115.0), TextCell("Berlin"), "", "", EmptyCell))
  {
  }
}
