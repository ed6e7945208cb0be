/** Locating the header row of the two input files: the line of the charging
    station registry CSV that holds the column names, and the row of the
    population workbook's sheet T14 that holds them. */
module HeaderDetection {
  import opened Wrappers
  import opened Text
  import opened Cells

  // ------------------------------------------------- station registry (CSV)

  /** The test applied to each line of the registry file. */
  predicate IsHeaderLine(line: string, sep: char) {
    Contains(line, "Ladeeinrichtungs-ID") || Contains(line, "Postleitzahl")
    || (CountChar(line, sep) > 1 && Contains(line, "Postleitzahl"))
  }

  /** The same test without its third alternative. */
  predicate HasMarker(line: string) {
    Contains(line, "Ladeeinrichtungs-ID") || Contains(line, "Postleitzahl")
  }

  /** The index of the first line passing the test, if any. */
  function FirstHeaderLine(lines: seq<string>, sep: char): (r: Option<nat>)
    ensures r.Some? ==> (r.value < |lines| && IsHeaderLine(lines[r.value], sep)
      && forall j :: 0 <= j < r.value ==> !IsHeaderLine(lines[j], sep))
    ensures r.None? ==> forall j :: 0 <= j < |lines| ==> !IsHeaderLine(lines[j], sep)
  {
    if lines == [] then None
    else if IsHeaderLine(lines[0], sep) then Some(0)
    else
      match FirstHeaderLine(lines[1..], sep)
      case Some(i) =>
        assert forall j :: 1 <= j <= i ==> lines[j] == lines[1..][j - 1];
        Some(i + 1)
      case None =>
        assert forall j :: 1 <= j < |lines| ==> lines[j] == lines[1..][j - 1];
        None
  }

  /** The header row handed to `read_csv`: the first matching line, or 0. */
  function CsvHeaderRow(lines: seq<string>, sep: char): nat
  {
    match FirstHeaderLine(lines, sep)
    case Some(i) => i
    case None => 0
  }

  /** The scan over the file's lines, stopping at the first match. */
  method FindCsvHeaderRow(lines: seq<string>, sep: char) returns (headerRow: nat)
    ensures headerRow == CsvHeaderRow(lines, sep)
    ensures headerRow == 0 || headerRow < |lines|
  {
    headerRow := 0;
    var i := 0;
    while i < |lines|
      invariant 0 <= i <= |lines|
      invariant headerRow == 0
      invariant forall j :: 0 <= j < i ==> !IsHeaderLine(lines[j], sep)
    {
      if IsHeaderLine(lines[i], sep) {
        headerRow := i;
        FirstMatchIsUnique(lines, sep, i);
        break;
      }
      i := i + 1;
    }
  }

  lemma {:induction false} FirstMatchIsUnique(lines: seq<string>, sep: char, i: nat)
    requires i < |lines| && IsHeaderLine(lines[i], sep)
    requires forall j :: 0 <= j < i ==> !IsHeaderLine(lines[j], sep)
    ensures CsvHeaderRow(lines, sep) == i
  {
  }

  /** The third alternative of the test never decides anything: a line passes
      exactly when it contains one of the two markers. */
  lemma {:induction false} ThirdAlternativeSubsumed(line: string, sep: char)
    ensures IsHeaderLine(line, sep) <==> HasMarker(line)
  {
  }

  /** When no line carries a marker, the header is taken to be line 0. */
  lemma {:induction false} NoMarkerMeansRowZero(lines: seq<string>, sep: char)
    requires forall j :: 0 <= j < |lines| ==> !HasMarker(lines[j])
    ensures CsvHeaderRow(lines, sep) == 0
  {
  }

  /** Lines after the first matching one never change the result. */
  lemma {:induction false} LaterLinesIrrelevant(lines: seq<string>, more: seq<string>, sep: char)
    requires exists j :: 0 <= j < |lines| && IsHeaderLine(lines[j], sep)
    ensures CsvHeaderRow(lines + more, sep) == CsvHeaderRow(lines, sep)
  {
    var i := CsvHeaderRow(lines, sep);
    assert FirstHeaderLine(lines, sep).Some?;
    assert (lines + more)[i] == lines[i];
    forall j | 0 <= j < i ensures !IsHeaderLine((lines + more)[j], sep) {
      assert (lines + more)[j] == lines[j];
    }
    FirstMatchIsUnique(lines + more, sep, i);
  }

  // ------------------------------------------------------ sheet T14 (Excel)

  /** A raw row as compared: every cell printed, stripped and lower-cased. */
  function NormRow(row: seq<Cell>): (vals: seq<string>)
    ensures |vals| == |row|
  {
    seq(|row|, i requires 0 <= i < |row| => NormText(CellText(row[i])))
  }

  function NormRows(raw: seq<seq<Cell>>): (rows: seq<seq<string>>)
    ensures |rows| == |raw|
    ensures forall i :: 0 <= i < |raw| ==> rows[i] == NormRow(raw[i])
  {
    seq(|raw|, i requires 0 <= i < |raw| => NormRow(raw[i]))
  }

  predicate MentionsTotal(v: string) {
    Contains(v, "ins") || Contains(v, "gesamt")
  }

  /** The header test of the population readers: some cell is exactly
      `postleitzahl` and some cell mentions `ins` or `gesamt`. */
  predicate IsT14Header(vals: seq<string>) {
    "postleitzahl" in vals && exists v :: v in vals && MentionsTotal(v)
  }

  /** The header test of the T14 mapping check: some cell is exactly `postleitzahl`. */
  predicate HasExactPlz(vals: seq<string>) {
    "postleitzahl" in vals
  }

  predicate MentionsBezirk(vals: seq<string>) {
    exists v :: v in vals && Contains(v, "bezirk")
  }

  /** How many leading rows the scans look at: `min(10, len(raw))`. */
  function ScanLimit(n: nat): nat
  {
    if n < 10 then n else 10
  }

  /** The first normalised row at or after `from`, among the scanned ones,
      that passes the population readers' test. */
  function FirstT14Header(rows: seq<seq<string>>, from: nat): (r: Option<nat>)
    requires from <= ScanLimit(|rows|)
    ensures r.Some? ==> (from <= r.value < ScanLimit(|rows|) && IsT14Header(rows[r.value])
      && forall j :: from <= j < r.value ==> !IsT14Header(rows[j]))
    ensures r.None? ==> forall j :: from <= j < ScanLimit(|rows|) ==> !IsT14Header(rows[j])
    decreases ScanLimit(|rows|) - from
  {
    if from == ScanLimit(|rows|) then None
    else if IsT14Header(rows[from]) then Some(from)
    else FirstT14Header(rows, from + 1)
  }

  /** The header row of sheet T14: the first passing row among the first ten,
      or row 2 when none passes. */
  function T14HeaderRow(raw: seq<seq<Cell>>): nat
  {
    match FirstT14Header(NormRows(raw), 0)
    case Some(i) => i
    case None => 2
  }

  /** The header row is one of the scanned rows, or row 2. */
  lemma {:induction false} T14HeaderRowScanned(raw: seq<seq<Cell>>)
    ensures T14HeaderRow(raw) == 2 || (T14HeaderRow(raw) < 10 && T14HeaderRow(raw) < |raw|)
  {
    var r := FirstT14Header(NormRows(raw), 0);
    assert r.Some? ==> r.value < ScanLimit(|raw|);
  }

  /** The population readers' scan of sheet T14. */
  method FindT14HeaderRow(raw: seq<seq<Cell>>) returns (headerRow: nat)
    ensures headerRow == T14HeaderRow(raw)
  {
    ghost var rows := NormRows(raw);
    var found: Option<nat> := None;
    var limit := if |raw| < 10 then |raw| else 10;
    var i := 0;
    while i < limit
      invariant 0 <= i <= limit == ScanLimit(|rows|)
      invariant found.None?
      invariant FirstT14Header(rows, 0) == FirstT14Header(rows, i)
    {
      var vals := NormRow(raw[i]);
      assert vals == rows[i];
      if IsT14Header(vals) {
        found := Some(i);
        break;
      }
      i := i + 1;
    }
    if found.None? {
      headerRow := 2;
    } else {
      headerRow := found.value;
    }
  }

  /** The first scanned row with an exact `postleitzahl` cell. */
  function FirstExactPlz(rows: seq<seq<string>>, from: nat): (r: Option<nat>)
    requires from <= ScanLimit(|rows|)
    ensures r.Some? ==> (from <= r.value < ScanLimit(|rows|) && HasExactPlz(rows[r.value])
      && forall j :: from <= j < r.value ==> !HasExactPlz(rows[j]))
    ensures r.None? ==> forall j :: from <= j < ScanLimit(|rows|) ==> !HasExactPlz(rows[j])
    decreases ScanLimit(|rows|) - from
  {
    if from == ScanLimit(|rows|) then None
    else if HasExactPlz(rows[from]) then Some(from)
    else FirstExactPlz(rows, from + 1)
  }

  function ExactPlzHeaderRow(raw: seq<seq<Cell>>): nat
  {
    match FirstExactPlz(NormRows(raw), 0)
    case Some(i) => i
    case None => 2
  }

  /** The mapping check's scan: it prefers a row that also mentions `bezirk`,
      but both of its branches stop at the same row, so the result is the
      first row with an exact `postleitzahl` cell, or 2. */
  method FindExactPlzHeaderRow(raw: seq<seq<Cell>>) returns (headerRow: nat)
    ensures headerRow == ExactPlzHeaderRow(raw)
  {
    ghost var rows := NormRows(raw);
    var found: Option<nat> := None;
    var limit := if |raw| < 10 then |raw| else 10;
    var i := 0;
    while i < limit
      invariant 0 <= i <= limit == ScanLimit(|rows|)
      invariant found.None?
      invariant FirstExactPlz(rows, 0) == FirstExactPlz(rows, i)
    {
      var vals := NormRow(raw[i]);
      assert vals == rows[i];
      if HasExactPlz(vals) && MentionsBezirk(vals) {
        found := Some(i);
        break;
      }
      if HasExactPlz(vals) {
        found := Some(i);
        break;
      }
      i := i + 1;
    }
    if found.None? {
      headerRow := 2;
    } else {
      headerRow := found.value;
    }
  }

  /** Whenever the population readers find a header row, the mapping check
      settles on that row or an earlier one. */
  lemma {:induction false} ExactScanNoLater(raw: seq<seq<Cell>>)
    requires FirstT14Header(NormRows(raw), 0).Some?
    ensures ExactPlzHeaderRow(raw) <= T14HeaderRow(raw)
  {
    var rows := NormRows(raw);
    var i := FirstT14Header(rows, 0).value;
    assert HasExactPlz(rows[i]);
  }

  lemma NormPostleitzahl()
    ensures NormRow([TextCell("Postleitzahl")]) == ["postleitzahl"]
  {
    StripUnchanged("Postleitzahl");
    LowerPostleitzahl();
    var r := NormRow([TextCell("Postleitzahl")]);
    assert r[0] == NormText("Postleitzahl");
  }

  lemma LowerPostleitzahl()
    ensures Lower("Postleitzahl") == "postleitzahl"
  {
  }

  lemma PostleitzahlAloneIsNoT14Header()
    ensures !IsT14Header(["postleitzahl"])
  {
    PostleitzahlMentionsNoTotal();
    forall v | v in ["postleitzahl"] ensures !MentionsTotal(v) {
      assert v == "postleitzahl";
    }
  }

  lemma PostleitzahlMentionsNoTotal()
    ensures !MentionsTotal("postleitzahl")
  {
    NoInsInPostleitzahl();
    NoGesamtInPostleitzahl();
  }

  /** The lower-cased heading `postleitzahl` does not contain `ins`. */
  lemma NoInsInPostleitzahl()
    ensures !Contains("postleitzahl", "ins")
  {
    if Contains("postleitzahl", "ins") {
      ContainsChars("postleitzahl", "ins", 'n');
    }
  }

  /** As `NoInsInPostleitzahl`, for the other word of the total test. */
  lemma NoGesamtInPostleitzahl()
    ensures !Contains("postleitzahl", "gesamt")
  {
    if Contains("postleitzahl", "gesamt") {
      ContainsChars("postleitzahl", "gesamt", 'g');
    }
  }

  /** The two scans disagree on a sheet whose only row names the postal-code
      column but has no total column. */
  lemma ScansDisagree()
    ensures T14HeaderRow([[TextCell("Postleitzahl")]]) == 2
    ensures ExactPlzHeaderRow([[TextCell("Postleitzahl")]]) == 0
  {
    var raw := [[TextCell("Postleitzahl")]];
    NormPostleitzahl();
    var rows := NormRows(raw);
    assert rows == [["postleitzahl"]];
    PostleitzahlAloneIsNoT14Header();
    assert FirstT14Header(rows, 0) == None;
    assert FirstExactPlz(rows, 0) == Some(0);
  }
}
