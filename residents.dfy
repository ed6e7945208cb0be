/** Turning sheet T14 of the population workbook (or a plain CSV) into a
    table of residents per postal code, in the four variants the repository
    has: the main program and the population event handler keep every row,
    the demand script and the mapping check clean the totals to digits and
    sum the rows of each postal code. */
module Residents {
  import opened Wrappers
  import opened Text
  import opened Cells
  import opened Tables
  import opened HeaderDetection
  import opened ColumnDetection

  /** A centroid as the pipeline stores it: `lat` is its y, `lon` its x. */
  datatype Point = Point(lat: real, lon: real)

  /** A residents row with its centroid, `None` where no geodata row matched. */
  type Located = (int, int, Option<Point>)

  // ------------------------------------------------- reading with a header

  /** The label pandas gives a header cell: its text, or `Unnamed: j` when blank. */
  function HeadingOf(c: Cell, j: nat): string
  {
    if c.EmptyCell? then "Unnamed: " + NatToString(j) else CellText(c)
  }

  predicate SameWidth(raw: seq<seq<Cell>>) {
    forall i :: 0 <= i < |raw| ==> |raw[i]| == |raw[0]|
  }

  /** `read_excel(header=h)`: row `h` gives the labels and the rows after it
      the data; a header row past the end fails, and the reader's `except`
      turns that into no table. */
  function ReadWithHeader(raw: seq<seq<Cell>>, h: nat): (s: Option<Sheet>)
    requires SameWidth(raw)
    ensures s.Some? <==> h < |raw|
    ensures s.Some? ==> Rectangular(s.value) && |s.value.rows| == |raw| - h - 1
  {
    if h < |raw| then
      var labels := seq(|raw[h]|, j requires 0 <= j < |raw[h]| => HeadingOf(raw[h][j], j));
      Some(Sheet(labels, raw[h + 1..]))
    else None
  }

  // -------------------------------------------------------- row extraction

  /** How a total cell becomes a number: read directly as a number (main
      program, population event handler), or first stripped to digits and
      `-` (demand script, mapping check, CSV fallbacks).
      `NumbersKept` is the cleaning the digit-stripping variants evidently
      intend (see `IntendedTotalValue`). */
  datatype TotalCleaning = AsNumber | DigitsOnly | NumbersKept

  function TotalValue(c: Cell, cleaning: TotalCleaning): int
  {
    match cleaning
    case AsNumber => NumericOrZero(c)
    case DigitsOnly => CleanedInt(c)
    case NumbersKept => IntendedTotalValue(c)
  }

  predicate ColumnsFit(s: Sheet, pc: nat, tc: nat) {
    Rectangular(s) && pc < |s.labels| && tc < |s.labels|
  }

  /** Each row as (postal code or missing, total). */
  function ExtractRaw(s: Sheet, pc: nat, tc: nat, cleaning: TotalCleaning): (out: seq<(Option<int>, int)>)
    requires ColumnsFit(s, pc, tc)
    ensures |out| == |s.rows|
    ensures forall i :: 0 <= i < |out| ==>
      out[i] == (ExtractPlz(s.rows[i][pc]), TotalValue(s.rows[i][tc], cleaning))
  {
    seq(|s.rows|, i requires 0 <= i < |s.rows| =>
      (ExtractPlz(s.rows[i][pc]), TotalValue(s.rows[i][tc], cleaning)))
  }

  /** `dropna(subset=['plz'])`: the rows with a postal code, in order. */
  function DropMissingPlz(raw: seq<(Option<int>, int)>): (out: seq<(int, int)>)
    ensures |out| <= |raw|
    ensures forall p, v :: (p, v) in out <==> (Some(p), v) in raw
  {
    if raw == [] then []
    else
      var rest := DropMissingPlz(raw[1..]);
      assert raw == [raw[0]] + raw[1..];
      if raw[0].0.Some? then [(raw[0].0.value, raw[0].1)] + rest else rest
  }

  /** The number of rows carrying a postal code. */
  function CountWithPlz(raw: seq<(Option<int>, int)>): nat
  {
    if raw == [] then 0 else (if raw[0].0.Some? then 1 else 0) + CountWithPlz(raw[1..])
  }

  function Totals(rows: seq<(int, int)>): seq<int>
  {
    seq(|rows|, i requires 0 <= i < |rows| => rows[i].1)
  }

  /** The total of the rows carrying a postal code. */
  function SumWithPlz(raw: seq<(Option<int>, int)>): int
  {
    if raw == [] then 0 else (if raw[0].0.Some? then raw[0].1 else 0) + SumWithPlz(raw[1..])
  }

  /** Dropping rows without a postal code keeps one row for every row that
      has one, duplicates included, and keeps their total: nothing is
      aggregated. */
  lemma {:induction false} DropMissingPlzKeepsEveryRow(raw: seq<(Option<int>, int)>)
    ensures |DropMissingPlz(raw)| == CountWithPlz(raw)
    ensures SumInt(Totals(DropMissingPlz(raw))) == SumWithPlz(raw)
  {
    if raw != [] {
      DropMissingPlzKeepsEveryRow(raw[1..]);
      var rest := DropMissingPlz(raw[1..]);
      if raw[0].0.Some? {
        var out := [(raw[0].0.value, raw[0].1)] + rest;
        assert Totals(out) == [raw[0].1] + Totals(rest);
        SumIntAppend([raw[0].1], Totals(rest));
      }
    }
  }

  /** Every postal code that survives extraction is a five-digit number. */
  lemma {:induction false} ExtractedPlzInRange(s: Sheet, pc: nat, tc: nat, cleaning: TotalCleaning)
    requires ColumnsFit(s, pc, tc)
    ensures forall r :: r in DropMissingPlz(ExtractRaw(s, pc, tc, cleaning)) ==> 0 <= r.0 < 100000
  {
    var raw := ExtractRaw(s, pc, tc, cleaning);
    forall r | r in DropMissingPlz(raw)
      ensures 0 <= r.0 < 100000
    {
      var i :| 0 <= i < |raw| && raw[i] == (Some(r.0), r.1);
    }
  }

  // -------------------------------------------------------------- grouping

  function AsTriples(rows: seq<(int, int)>): seq<(int, int, ())>
  {
    seq(|rows|, i requires 0 <= i < |rows| => (rows[i].0, rows[i].1, ()))
  }

  /** `groupby('plz', as_index=False)['einwohner'].sum()`. */
  function Aggregate(rows: seq<(int, int)>): seq<(int, int)>
  {
    var gs := GroupBy(AsTriples(rows));
    seq(|gs|, i requires 0 <= i < |gs| => (gs[i].key, gs[i].total))
  }

  function Keys(rows: seq<(int, int)>): set<int>
  {
    set i | 0 <= i < |rows| :: rows[i].0
  }

  /** Summing by postal code leaves one row per postal code, in ascending
      order, each carrying the sum of that postal code's totals, and keeps
      the overall total. */
  lemma {:induction false} AggregateSpec(rows: seq<(int, int)>)
    ensures var out := Aggregate(rows);
      && (forall i, j :: 0 <= i < j < |out| ==> out[i].0 < out[j].0)
      && Keys(out) == Keys(rows)
      && (forall i :: 0 <= i < |out| ==> out[i].1 == SumKey(AsTriples(rows), out[i].0))
      && SumInt(Totals(out)) == SumInt(Totals(rows))
  {
    var t := AsTriples(rows);
    var gs := GroupBy(t);
    var out := Aggregate(rows);
    GroupBySpec(t);
    GroupByKeys(t);
    assert RowKeys(t) == Keys(rows) by {
      forall k | k in Keys(rows) ensures k in RowKeys(t) {
        var i :| 0 <= i < |rows| && rows[i].0 == k;
        assert t[i].0 == k;
      }
    }
    assert GroupKeys(gs) == Keys(out) by {
      forall k | k in GroupKeys(gs) ensures k in Keys(out) {
        var i :| 0 <= i < |gs| && gs[i].key == k;
        assert out[i].0 == k;
      }
    }
    forall i | 0 <= i < |out|
      ensures out[i].1 == SumKey(t, out[i].0)
    {
      LookupOfSorted(gs, i);
    }
    SortedKeysIncrease(gs);
    SumTotalsIsSumInt(gs);
    assert Totals(out) == seq(|gs|, i requires 0 <= i < |gs| => gs[i].total);
    SumValuesIsSumInt(rows);
  }

  lemma {:induction false} SortedKeysIncrease<G>(gs: seq<Group<G>>)
    requires KeysStrictlySorted(gs)
    ensures forall i, j :: 0 <= i < j < |gs| ==> gs[i].key < gs[j].key
  {
  }

  lemma {:induction false} SumTotalsIsSumInt<G>(gs: seq<Group<G>>)
    ensures SumTotals(gs) == SumInt(seq(|gs|, i requires 0 <= i < |gs| => gs[i].total))
  {
    var ts := seq(|gs|, i requires 0 <= i < |gs| => gs[i].total);
    if gs != [] {
      SumTotalsIsSumInt(gs[1..]);
      assert ts == [gs[0].total] + seq(|gs[1..]|, i requires 0 <= i < |gs[1..]| => gs[1..][i].total);
      SumIntAppend([gs[0].total], ts[1..]);
    }
  }

  lemma {:induction false} SumValuesIsSumInt(rows: seq<(int, int)>)
    ensures SumValues(AsTriples(rows)) == SumInt(Totals(rows))
  {
    if rows != [] {
      var n := |rows| - 1;
      SumValuesIsSumInt(rows[..n]);
      assert AsTriples(rows)[..n] == AsTriples(rows[..n]);
      assert Totals(rows) == Totals(rows[..n]) + [rows[n].1];
      SumIntAppend(Totals(rows[..n]), [rows[n].1]);
    }
  }

  // ------------------------------------------------------------- centroids

  /** `merge(geodata[['PLZ', 'centroid']], left_on='plz', right_on='PLZ', how='left')`. */
  function AttachCentroids(rows: seq<(int, int)>, geo: seq<(int, Point)>): seq<Located>
  {
    LeftJoin(rows, geo)
  }

  /** With one geodata row per postal code, attaching centroids keeps the
      rows and their order and adds the matching centroid or none. */
  lemma {:induction false} AttachCentroidsUnique(rows: seq<(int, int)>, geo: seq<(int, Point)>)
    requires UniqueKeys(geo)
    ensures |AttachCentroids(rows, geo)| == |rows|
    ensures forall i :: 0 <= i < |rows| ==>
      AttachCentroids(rows, geo)[i] == (rows[i].0, rows[i].1, LookupRight(geo, rows[i].0))
  {
    LeftJoinUnique(rows, geo);
  }

  // ------------------------------------------------------ the T14 variants

  /** The main program: keep rows with a postal code, numbers read as is, no
      aggregation, then attach centroids. */
  function MainT14Rows(s: Sheet, pc: nat, tc: nat, geo: seq<(int, Point)>): seq<Located>
    requires ColumnsFit(s, pc, tc)
  {
    AttachCentroids(DropMissingPlz(ExtractRaw(s, pc, tc, AsNumber)), geo)
  }

  /** The population event handler: attach centroids first (a row without a
      postal code matches nothing), then drop rows without a postal code. */
  function ProcessedT14Rows(s: Sheet, pc: nat, tc: nat, geo: seq<(int, Point)>): seq<Located>
    requires ColumnsFit(s, pc, tc)
  {
    DropMissingLocated(JoinRaw(ExtractRaw(s, pc, tc, AsNumber), geo))
  }

  /** The merge on a key that may be missing: a missing key matches nothing. */
  function JoinRaw(raw: seq<(Option<int>, int)>, geo: seq<(int, Point)>): seq<(Option<int>, int, Option<Point>)>
  {
    if raw == [] then []
    else
      var head :=
        if raw[0].0.Some? then
          var j := JoinRow(raw[0].0.value, raw[0].1, Matches(geo, raw[0].0.value));
          seq(|j|, i requires 0 <= i < |j| => (Some(j[i].0), j[i].1, j[i].2))
        else [(None, raw[0].1, None)];
      head + JoinRaw(raw[1..], geo)
  }

  function DropMissingLocated(rows: seq<(Option<int>, int, Option<Point>)>): seq<Located>
  {
    if rows == [] then []
    else
      var rest := DropMissingLocated(rows[1..]);
      if rows[0].0.Some? then [(rows[0].0.value, rows[0].1, rows[0].2)] + rest else rest
  }

  lemma {:induction false} DropMissingLocatedAppend(a: seq<(Option<int>, int, Option<Point>)>, b: seq<(Option<int>, int, Option<Point>)>)
    ensures DropMissingLocated(a + b) == DropMissingLocated(a) + DropMissingLocated(b)
  {
    if a != [] {
      assert (a + b)[1..] == a[1..] + b;
      DropMissingLocatedAppend(a[1..], b);
    } else {
      assert a + b == b;
    }
  }

  lemma {:induction false} DropMissingOfLifted(j: seq<(int, int, Option<Point>)>)
    ensures DropMissingLocated(seq(|j|, i requires 0 <= i < |j| => (Some(j[i].0), j[i].1, j[i].2))) == j
  {
    var lifted := seq(|j|, i requires 0 <= i < |j| => (Some(j[i].0), j[i].1, j[i].2));
    if j != [] {
      DropMissingOfLifted(j[1..]);
      assert lifted[1..] == seq(|j[1..]|, i requires 0 <= i < |j[1..]| => (Some(j[1..][i].0), j[1..][i].1, j[1..][i].2));
      assert j == [j[0]] + j[1..];
    }
  }

  /** Dropping rows without a postal code after the merge gives what the
      main program gets by dropping them before it. */
  lemma {:induction false} DropCommutesWithJoin(raw: seq<(Option<int>, int)>, geo: seq<(int, Point)>)
    ensures DropMissingLocated(JoinRaw(raw, geo)) == LeftJoin(DropMissingPlz(raw), geo)
  {
    if raw != [] {
      DropCommutesWithJoin(raw[1..], geo);
      var head :=
        if raw[0].0.Some? then
          var j := JoinRow(raw[0].0.value, raw[0].1, Matches(geo, raw[0].0.value));
          seq(|j|, i requires 0 <= i < |j| => (Some(j[i].0), j[i].1, j[i].2))
        else [(None, raw[0].1, None)];
      assert JoinRaw(raw, geo) == head + JoinRaw(raw[1..], geo);
      DropMissingLocatedAppend(head, JoinRaw(raw[1..], geo));
      if raw[0].0.Some? {
        DropMissingOfLifted(JoinRow(raw[0].0.value, raw[0].1, Matches(geo, raw[0].0.value)));
        var left := DropMissingPlz(raw);
        assert left == [(raw[0].0.value, raw[0].1)] + DropMissingPlz(raw[1..]);
        assert left[1..] == DropMissingPlz(raw[1..]);
      } else {
        assert DropMissingLocated(head) == [];
      }
    }
  }

  /** So the population event handler's T14 rows are the main program's. */
  lemma {:induction false} ProcessedMatchesMain(s: Sheet, pc: nat, tc: nat, geo: seq<(int, Point)>)
    requires ColumnsFit(s, pc, tc)
    ensures ProcessedT14Rows(s, pc, tc, geo) == MainT14Rows(s, pc, tc, geo)
  {
    DropCommutesWithJoin(ExtractRaw(s, pc, tc, AsNumber), geo);
  }

  /** The demand script and the mapping check: totals stripped to digits,
      rows summed per postal code, then centroids attached. */
  function SummedT14Rows(s: Sheet, pc: nat, tc: nat, cleaning: TotalCleaning, geo: seq<(int, Point)>): seq<Located>
    requires ColumnsFit(s, pc, tc)
  {
    AttachCentroids(Aggregate(DropMissingPlz(ExtractRaw(s, pc, tc, cleaning))), geo)
  }

  /** With one geodata row per postal code, the summed table has one row per
      distinct postal code, and its totals add up to the total of all rows
      with a postal code. */
  lemma {:induction false} SummedT14Spec(s: Sheet, pc: nat, tc: nat, cleaning: TotalCleaning, geo: seq<(int, Point)>)
    requires ColumnsFit(s, pc, tc) && UniqueKeys(geo)
    ensures var raw := ExtractRaw(s, pc, tc, cleaning);
      var kept := DropMissingPlz(raw);
      var out := SummedT14Rows(s, pc, tc, cleaning, geo);
      && |out| == |Aggregate(kept)|
      && (forall i, j :: 0 <= i < j < |out| ==> out[i].0 < out[j].0)
      && Keys(Aggregate(kept)) == Keys(kept)
      && SumInt(Totals(Aggregate(kept))) == SumWithPlz(raw)
  {
    var raw := ExtractRaw(s, pc, tc, cleaning);
    var kept := DropMissingPlz(raw);
    AggregateSpec(kept);
    DropMissingPlzKeepsEveryRow(raw);
    AttachCentroidsUnique(Aggregate(kept), geo);
  }

  /** Where the variants disagree on the same cell: a total read as the
      float `1234.0` stays 1234 when read as a number but becomes 12340 when
      stripped to digits, since the digit of `.0` is kept. */
  lemma {:induction false} CleaningsDisagreeOnFloats(w: nat)
    ensures TotalValue(FloatCell(w), AsNumber) == w
    ensures TotalValue(FloatCell(w), DigitsOnly) == 10 * w
  {
    CleanedIntOfFloat(w);
  }

  /** The cleaning the digit-stripping variants evidently intend: numbers are
      taken as they are, and only text is stripped to digits and `-`. */
  function IntendedTotalValue(c: Cell): (v: int)
    ensures c.IntCell? ==> v == c.i
    ensures c.FloatCell? ==> v == c.whole
    ensures c.TextCell? ==> v == CleanedInt(c)
    ensures c.EmptyCell? ==> v == 0
  {
    match c
    case IntCell(i) => i
    case FloatCell(w) => w
    case TextCell(_) => CleanedInt(c)
    case EmptyCell => 0
  }

  /** The intended cleaning agrees with the digit-stripping one wherever the
      latter is right: on integer cells, on text, on missing cells. */
  lemma {:induction false} IntendedAgreesOffFloats(c: Cell)
    requires !c.FloatCell?
    ensures IntendedTotalValue(c) == TotalValue(c, DigitsOnly)
  {
    match c
    case IntCell(i) => CleanedIntOfInt(i);
    case TextCell(_) =>
    case EmptyCell =>
      assert KeepDigitsAndMinus("nan") == "";
  }

  /** And it agrees with reading numbers directly on every numeric cell. */
  lemma {:induction false} IntendedAgreesOnNumbers(c: Cell)
    requires c.IntCell? || c.FloatCell? || c.EmptyCell?
    ensures IntendedTotalValue(c) == TotalValue(c, AsNumber)
  {
  }

  // ------------------------------------------------------------------ CSV

  /** The last heading whose lower-cased form is `name`: the column the
      source finds through `{c.lower(): c}`, where later headings overwrite
      earlier ones. */
  function LastLowerEqual(labels: seq<string>, name: string): (r: Option<nat>)
    ensures r.Some? ==> (r.value < |labels| && Lower(labels[r.value]) == name
      && forall j :: r.value < j < |labels| ==> Lower(labels[j]) != name)
    ensures r.None? ==> forall j :: 0 <= j < |labels| ==> Lower(labels[j]) != name
  {
    if labels == [] then None
    else if Lower(labels[|labels| - 1]) == name then Some(|labels| - 1)
    else
      var init := labels[..|labels| - 1];
      assert forall j :: 0 <= j < |init| ==> init[j] == labels[j];
      LastLowerEqual(init, name)
  }

  /** The CSV fallback: with a `postleitzahl` and an `insgesamt` column, every
      row as (postal code or missing, total stripped to digits); rows without
      a postal code are kept. */
  function CsvRows(s: Sheet): (r: Option<seq<(Option<int>, int)>>)
    requires Rectangular(s)
    ensures r.Some? <==> (LastLowerEqual(s.labels, "postleitzahl").Some?
      && LastLowerEqual(s.labels, "insgesamt").Some?)
    ensures r.Some? ==> |r.value| == |s.rows|
  {
    match (LastLowerEqual(s.labels, "postleitzahl"), LastLowerEqual(s.labels, "insgesamt"))
    case (Some(pc), Some(tc)) => Some(ExtractRaw(s, pc, tc, DigitsOnly))
    case _ => None
  }

  // ----------------------------------------------------- whole readers

  /** The T14 part shared by the main program and the population event
      handler: find the header row, read with it, find the columns, extract. */
  function MainT14(raw: seq<seq<Cell>>, geo: seq<(int, Point)>): (r: Option<seq<Located>>)
    requires SameWidth(raw)
    ensures r.Some? ==> forall t :: t in r.value ==> 0 <= t.0 < 100000
  {
    match ReadWithHeader(raw, T14HeaderRow(raw))
    case None => None
    case Some(s) =>
      match (LastIndex(s.labels, T14Plz), LastIndex(s.labels, T14Total(InsDashExact)))
      case (Some(pc), Some(tc)) =>
        ExtractedPlzInRange(s, pc, tc, AsNumber);
        LeftJoinRowsFromInputs(DropMissingPlz(ExtractRaw(s, pc, tc, AsNumber)), geo);
        Some(MainT14Rows(s, pc, tc, geo))
      case _ => None
  }

  /** `process_residents_data`: the T14 path of the main program; when it
      yields nothing, the district branch is an empty stub and the result is
      `None`, as it is for a non-Excel file. */
  function ProcessResidentsData(isExcel: bool, t14: Option<seq<seq<Cell>>>, geo: seq<(int, Point)>)
    : (r: Option<seq<Located>>)
    requires t14.Some? ==> SameWidth(t14.value)
    ensures r.Some? <==> isExcel && t14.Some? && MainT14(t14.value, geo).Some?
    ensures r.Some? ==> r == MainT14(t14.value, geo)
  {
    if isExcel && t14.Some? then
      ProcessedT14IsMain(t14.value, geo);
      ProcessedT14(t14.value, geo)
    else None
  }

  /** The T14 path with the population event handler's row order. */
  function ProcessedT14(raw: seq<seq<Cell>>, geo: seq<(int, Point)>): Option<seq<Located>>
    requires SameWidth(raw)
  {
    match ReadWithHeader(raw, T14HeaderRow(raw))
    case None => None
    case Some(s) =>
      match (LastIndex(s.labels, T14Plz), LastIndex(s.labels, T14Total(InsDashExact)))
      case (Some(pc), Some(tc)) => Some(ProcessedT14Rows(s, pc, tc, geo))
      case _ => None
  }

  /** Either order of joining and dropping gives the main program's rows. */
  lemma {:induction false} ProcessedT14IsMain(raw: seq<seq<Cell>>, geo: seq<(int, Point)>)
    requires SameWidth(raw)
    ensures ProcessedT14(raw, geo) == MainT14(raw, geo)
  {
    match ReadWithHeader(raw, T14HeaderRow(raw))
    case None =>
    case Some(s) =>
      match (LastIndex(s.labels, T14Plz), LastIndex(s.labels, T14Total(InsDashExact)))
      case (Some(pc), Some(tc)) => ProcessedMatchesMain(s, pc, tc, geo);
      case _ =>
  }

  /** The header row and the two columns `read_residents` finds in the T14
      sheet: the sheet read with the detected header row, and the last
      postal-code and the last total heading. */
  function DemandT14Columns(raw: seq<seq<Cell>>): (r: Option<(Sheet, nat, nat)>)
    requires SameWidth(raw)
    ensures r.Some? ==> ColumnsFit(r.value.0, r.value.1, r.value.2)
  {
    match ReadWithHeader(raw, T14HeaderRow(raw))
    case None => None
    case Some(s) =>
      match (LastIndex(s.labels, T14Plz), LastIndex(s.labels, T14Total(InsDashAnywhere)))
      case (Some(pc), Some(tc)) => Some((s, pc, tc))
      case _ => None
  }

  /** The table's postal code and residents columns, its centroid column
      left out. */
  function WithoutCentroids(rows: seq<Located>): (r: seq<(Option<int>, int)>)
    ensures |r| == |rows|
    ensures forall i :: 0 <= i < |rows| ==> r[i] == (Some(rows[i].0), rows[i].1)
  {
    seq(|rows|, i requires 0 <= i < |rows| => (Some(rows[i].0), rows[i].1))
  }

  /** `read_residents` of the demand script: the summed T14 table without
      its centroids when the workbook yields one, else the CSV fallback;
      `None` is what the script turns into `RuntimeError('No residents data
      found')`. */
  function ReadResidents(isExcel: bool, t14: Option<seq<seq<Cell>>>, csv: Sheet, geo: seq<(int, Point)>)
    : (r: Option<seq<(Option<int>, int)>>)
    requires t14.Some? ==> SameWidth(t14.value)
    requires Rectangular(csv)
    ensures r.None? ==> CsvRows(csv).None?
    ensures !isExcel ==> r == CsvRows(csv)
    ensures var cols := if isExcel && t14.Some? then DemandT14Columns(t14.value) else None;
      && (cols.Some? ==>
            r == Some(WithoutCentroids(SummedT14Rows(cols.value.0, cols.value.1, cols.value.2, DigitsOnly, geo))))
      && (cols.None? ==> r == CsvRows(csv))
  {
    var cols := if isExcel && t14.Some? then DemandT14Columns(t14.value) else None;
    match cols
    case Some((s, pc, tc)) => Some(WithoutCentroids(SummedT14Rows(s, pc, tc, DigitsOnly, geo)))
    case None => CsvRows(csv)
  }

  /** The postal codes a table carries. */
  function PresentCodes(rows: seq<(Option<int>, int)>): set<int>
  {
    set i | 0 <= i < |rows| && rows[i].0.Some? :: rows[i].0.value
  }

  /** Summing rows by postal code and attaching unique centroids, then
      leaving the centroids out, gives one row per postal code in ascending
      order with that postal code's sum. */
  lemma {:induction false} SummedWithoutCentroids(kept: seq<(int, int)>, geo: seq<(int, Point)>)
    requires UniqueKeys(geo)
    ensures var r := WithoutCentroids(AttachCentroids(Aggregate(kept), geo));
      && (forall i :: 0 <= i < |r| ==> r[i].0.Some? && r[i].1 == SumKey(AsTriples(kept), r[i].0.value))
      && (forall i, j :: 0 <= i < j < |r| ==> r[i].0.value < r[j].0.value)
      && PresentCodes(r) == Keys(kept)
  {
    var agg := Aggregate(kept);
    var r := WithoutCentroids(AttachCentroids(agg, geo));
    AggregateSpec(kept);
    AttachCentroidsUnique(agg, geo);
    assert forall i :: 0 <= i < |r| ==> r[i] == (Some(agg[i].0), agg[i].1);
    assert PresentCodes(r) == Keys(agg) by {
      forall k | k in Keys(agg) ensures k in PresentCodes(r) {
        var i :| 0 <= i < |agg| && agg[i].0 == k;
        assert r[i].0 == Some(k);
      }
    }
  }

  /** When the workbook yields a table and the geodata hold one row per
      postal code, `read_residents` returns one row per distinct postal code
      of the sheet, in ascending order, each with the sum of that postal
      code's totals stripped to digits. */
  lemma {:induction false} ReadResidentsWorkbook(t14: seq<seq<Cell>>, csv: Sheet, geo: seq<(int, Point)>)
    requires SameWidth(t14) && Rectangular(csv) && UniqueKeys(geo)
    requires DemandT14Columns(t14).Some?
    ensures var cols := DemandT14Columns(t14).value;
      var kept := DropMissingPlz(ExtractRaw(cols.0, cols.1, cols.2, DigitsOnly));
      var r := ReadResidents(true, Some(t14), csv, geo);
      && r.Some?
      && (forall i :: 0 <= i < |r.value| ==>
            r.value[i].0.Some? && r.value[i].1 == SumKey(AsTriples(kept), r.value[i].0.value))
      && (forall i, j :: 0 <= i < j < |r.value| ==> r.value[i].0.value < r.value[j].0.value)
      && PresentCodes(r.value) == Keys(kept)
  {
    var cols := DemandT14Columns(t14).value;
    SummedWithoutCentroids(DropMissingPlz(ExtractRaw(cols.0, cols.1, cols.2, DigitsOnly)), geo);
  }
}
