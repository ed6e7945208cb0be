/** Picking columns by their labels: the postal-code and total columns of sheet
    T14, the district and total columns of sheet T5, the name column of the
    district boundary file, and the residents column of the demand layer.
    Every scan goes over the labels in order and keeps reassigning its result,
    so the last passing heading wins, except where a `break` makes the first
    one win. */
module ColumnDetection {
  import opened Wrappers
  import opened Text
  import opened Cells

  /** The three spellings of the T14 total-column test. They share the
      `insgesamt`, `gesamt` and `in insgesamt` alternatives and differ in one:
      the heading is exactly `ins-` (main program, population event handler),
      contains `ins-` (demand script), or is exactly `insgesamt` (mapping check). */
  datatype TotalRule = InsDashExact | InsDashAnywhere | InsgesamtExact

  /** The heading tests the scans apply. */
  datatype ColumnTest =
    | T14Plz
    | T14Total(rule: TotalRule)
    | T5District
    | T5Total
    | T5TotalDiagnostics
    | BoundaryName
    | BoundaryNameDiagnostics
    | DemandResidents

  predicate RuleAlternative(rule: TotalRule, lc: string) {
    match rule
    case InsDashExact => lc == "ins-"
    case InsDashAnywhere => Contains(lc, "ins-")
    case InsgesamtExact => lc == "insgesamt"
  }

  /** Whether a column heading passes a test. T14 tests see the heading stripped
      and lower-cased; the others see it lower-cased only. */
  predicate Passes(t: ColumnTest, heading: string) {
    var lc := NormText(heading);
    var low := Lower(heading);
    match t
    case T14Plz =>
      Contains(lc, "postleitzahl") || lc == "plz" || Contains(low, "postleitzahl")
    case T14Total(rule) =>
      Contains(lc, "insgesamt") || RuleAlternative(rule, lc) || Contains(lc, "gesamt")
      || Contains(lc, "in insgesamt")
    case T5District =>
      Contains(low, "bezirk") || Contains(low, "bezirk")
    case T5Total =>
      Contains(low, "insgesamt") || Contains(low, "in insgesamt") || Contains(low, "gesamt")
      || Contains(low, "in insgesamt")
    case T5TotalDiagnostics =>
      Contains(low, "insgesamt") || Contains(low, "gesamt") || Contains(low, "insgesamt")
    case BoundaryName =>
      Contains(low, "gemeinde") || Contains(low, "bezirk") || Contains(low, "name")
    case BoundaryNameDiagnostics =>
      Contains(low, "bez") || Contains(low, "name")
    case DemandResidents =>
      "einw" <= low || Contains(low, "einw")
  }

  /** The position of the last heading passing `t`. */
  function LastIndex(labels: seq<string>, t: ColumnTest): (r: Option<nat>)
    ensures r.Some? ==> (r.value < |labels| && Passes(t, labels[r.value])
      && forall j :: r.value < j < |labels| ==> !Passes(t, labels[j]))
    ensures r.None? ==> forall j :: 0 <= j < |labels| ==> !Passes(t, labels[j])
  {
    OutcomesSpec(labels, t);
    LastTrue(Outcomes(labels, t), |labels|)
  }

  /** The outcome of the test on each heading, in order. */
  function Outcomes(labels: seq<string>, t: ColumnTest): (r: seq<bool>)
    ensures |r| == |labels|
  {
    if labels == [] then [] else Outcomes(labels[..|labels| - 1], t) + [Passes(t, labels[|labels| - 1])]
  }

  lemma {:induction false} OutcomesSpec(labels: seq<string>, t: ColumnTest)
    ensures forall j :: 0 <= j < |labels| ==> Outcomes(labels, t)[j] == Passes(t, labels[j])
  {
    if labels != [] {
      var init := labels[..|labels| - 1];
      OutcomesSpec(init, t);
      assert forall j :: 0 <= j < |init| ==> init[j] == labels[j];
    }
  }

  /** The outcome at one position is the test on that heading. */
  lemma {:induction false} OutcomeAt(labels: seq<string>, t: ColumnTest, j: nat)
    requires j < |labels|
    ensures Outcomes(labels, t)[j] == Passes(t, labels[j])
  {
    OutcomesSpec(labels, t);
  }

  /** Applies test `t` to the heading at position `i`: the outcome recorded
      for that position. */
  method TestHeading(labels: seq<string>, t: ColumnTest, i: nat) returns (b: bool)
    requires i < |labels|
    ensures b == Outcomes(labels, t)[i] && b == Passes(t, labels[i])
  {
    b := Passes(t, labels[i]);
    OutcomeAt(labels, t, i);
  }

  /** The last of the first `n` positions holding `true`. */
  function LastTrue(bs: seq<bool>, n: nat): (r: Option<nat>)
    requires n <= |bs|
    ensures r.Some? ==> (r.value < n && bs[r.value] && forall j :: r.value < j < n ==> !bs[j])
    ensures r.None? ==> forall j :: 0 <= j < n ==> !bs[j]
  {
    if n == 0 then None
    else if bs[n - 1] then Some(n - 1)
    else LastTrue(bs, n - 1)
  }

  /** One more position: it is the last `true` one if it holds `true`. */
  lemma {:induction false} LastTrueStep(bs: seq<bool>, i: nat, b: bool, last: Option<nat>)
    requires i < |bs| && bs[i] == b && last == LastTrue(bs, i)
    ensures LastTrue(bs, i + 1) == if b then Some(i) else last
  {
  }

  /** The position of the first heading passing `t`. */
  function FirstIndex(labels: seq<string>, t: ColumnTest): (r: Option<nat>)
    ensures r.Some? ==> (r.value < |labels| && Passes(t, labels[r.value])
      && forall j :: 0 <= j < r.value ==> !Passes(t, labels[j]))
    ensures r.None? ==> forall j :: 0 <= j < |labels| ==> !Passes(t, labels[j])
  {
    if labels == [] then None
    else if Passes(t, labels[0]) then Some(0)
    else
      match FirstIndex(labels[1..], t)
      case Some(i) =>
        assert forall j :: 1 <= j <= i ==> labels[j] == labels[1..][j - 1];
        Some(i + 1)
      case None =>
        assert forall j :: 1 <= j < |labels| ==> labels[j] == labels[1..][j - 1];
        None
  }

  /** Two tests that agree on every heading pick the same last column. */
  lemma {:induction false} LastIndexOfEquivalentTests(labels: seq<string>, t: ColumnTest, u: ColumnTest)
    requires forall j :: 0 <= j < |labels| ==> (Passes(t, labels[j]) <==> Passes(u, labels[j]))
    ensures LastIndex(labels, t) == LastIndex(labels, u)
  {
    OutcomesSpec(labels, t);
    OutcomesSpec(labels, u);
    assert Outcomes(labels, t) == Outcomes(labels, u);
  }

  // ------------------------------------------------------------ sheet T14

  /** The T14 column scan: no `break`, so the last passing heading wins for
      both the postal-code and the total column. */
  method DetectT14Columns(labels: seq<string>, rule: TotalRule)
    returns (plzCol: Option<nat>, totalCol: Option<nat>)
    ensures plzCol == LastIndex(labels, T14Plz)
    ensures totalCol == LastIndex(labels, T14Total(rule))
  {
    plzCol, totalCol := None, None;
    ghost var plzs, totals := Outcomes(labels, T14Plz), Outcomes(labels, T14Total(rule));
    var i := 0;
    while i < |labels|
      invariant 0 <= i <= |labels|
      invariant plzCol == LastTrue(plzs, i)
      invariant totalCol == LastTrue(totals, i)
    {
      var isPlz := TestHeading(labels, T14Plz, i);
      var isTotal := TestHeading(labels, T14Total(rule), i);
      LastTrueStep(plzs, i, isPlz, plzCol);
      LastTrueStep(totals, i, isTotal, totalCol);
      if isPlz {
        plzCol := Some(i);
      }
      if isTotal {
        totalCol := Some(i);
      }
      i := i + 1;
    }
  }

  lemma {:induction false} LowerOfSpace(c: char)
    requires IsSpace(c)
    ensures LowerChar(c) == c
  {
  }

  /** Lower-casing after stripping is the stripped slice of the lower-cased heading. */
  lemma {:induction false} LowerOfStrip(s: string)
    ensures NormText(s) == Lower(s)[StripStart(s)..StripEnd(s)]
  {
  }

  /** A word without white space found in the lower-cased heading is also found
      in the stripped, lower-cased one: stripping only removes white space. */
  lemma {:induction false} WordSurvivesStrip(s: string, w: string)
    requires |w| > 0 && forall m :: 0 <= m < |w| ==> !IsSpace(w[m])
    requires Contains(Lower(s), w)
    ensures Contains(NormText(s), w)
  {
    WordInsideStrippedPart(s, w);
    LowerOfStrip(s);
    ContainsInEqual(Lower(s)[StripStart(s)..StripEnd(s)], NormText(s), w);
  }

  /** Such a word lies inside the part of the lower-cased heading that
      stripping keeps. */
  lemma {:induction false} WordInsideStrippedPart(s: string, w: string)
    requires |w| > 0 && forall m :: 0 <= m < |w| ==> !IsSpace(w[m])
    requires Contains(Lower(s), w)
    ensures Contains(Lower(s)[StripStart(s)..StripEnd(s)], w)
  {
    StripMarginsStayBlank(s);
    WordInsideSlice(Lower(s), StripStart(s), StripEnd(s), w);
  }

  lemma {:induction false} ContainsInEqual(a: string, b: string, w: string)
    requires a == b && Contains(a, w)
    ensures Contains(b, w)
  {
  }

  /** Lower-casing keeps the white space that stripping removes. */
  lemma {:induction false} StripMarginsStayBlank(s: string)
    ensures BlankOutside(Lower(s), StripStart(s), StripEnd(s))
  {
    forall m | 0 <= m < |s| && IsSpace(s[m])
      ensures IsSpace(Lower(s)[m])
    {
      LowerOfSpace(s[m]);
    }
  }

  /** `[i, j)` is a slice of `a`, and `a` is white space outside it. */
  predicate BlankOutside(a: string, i: int, j: int) {
    && 0 <= i <= j <= |a|
    && (forall m :: 0 <= m < i ==> IsSpace(a[m]))
    && (forall m :: j <= m < |a| ==> IsSpace(a[m]))
  }

  /** A word without white space inside a text that is white space outside
      the slice `[i, j)` lies inside that slice. */
  lemma {:induction false} WordInsideSlice(a: string, i: int, j: int, w: string)
    requires BlankOutside(a, i, j)
    requires |w| > 0 && forall m :: 0 <= m < |w| ==> !IsSpace(w[m])
    requires Contains(a, w)
    ensures Contains(a[i..j], w)
  {
    ContainsIffOccurs(a, w);
    var k :| OccursAt(a, w, k);
    assert a[k] == w[0] && a[k + |w| - 1] == w[|w| - 1] by {
      assert a[k..k + |w|] == w;
    }
    OccursInSlice(a, i, j, w, k);
    ContainsIffOccurs(a[i..j], w);
  }

  lemma {:induction false} OccursInSlice(a: string, i: int, j: int, w: string, k: int)
    requires 0 <= i <= k && k + |w| <= j <= |a| && OccursAt(a, w, k)
    ensures OccursAt(a[i..j], w, k - i)
  {
    var b := a[i..j];
    forall m | 0 <= m < |w|
      ensures b[k - i + m] == w[m]
    {
      assert a[k..k + |w|][m] == a[k + m];
    }
    assert b[k - i..k - i + |w|] == w;
  }

  /** The third alternative of the T14 postal-code test never decides
      anything: a heading passes exactly when its stripped, lower-cased form
      contains `postleitzahl` or is `plz`. */
  lemma {:induction false} PlzThirdAlternativeSubsumed(heading: string)
    ensures Passes(T14Plz, heading)
      <==> Contains(NormText(heading), "postleitzahl") || NormText(heading) == "plz"
  {
    if Contains(Lower(heading), "postleitzahl") {
      WordSurvivesStrip(heading, "postleitzahl");
    }
  }

  lemma GesamtInsideTotals()
    ensures Contains("insgesamt", "gesamt")
    ensures Contains("in insgesamt", "gesamt")
  {
    assert OccursAt("insgesamt", "gesamt", 3);
    ContainsIffOccurs("insgesamt", "gesamt");
    assert OccursAt("in insgesamt", "gesamt", 6);
    ContainsIffOccurs("in insgesamt", "gesamt");
  }

  /** Whatever contains `insgesamt` or `in insgesamt` contains `gesamt`. */
  lemma {:induction false} TotalWordsReduceToGesamt(lc: string)
    ensures Contains(lc, "insgesamt") || Contains(lc, "in insgesamt") || lc == "insgesamt"
      ==> Contains(lc, "gesamt")
  {
    GesamtInsideTotals();
    if Contains(lc, "insgesamt") {
      ContainsTransitive(lc, "insgesamt", "gesamt");
    } else if Contains(lc, "in insgesamt") {
      ContainsTransitive(lc, "in insgesamt", "gesamt");
    }
  }

  /** What each spelling of the T14 total test reduces to: `gesamt`
      anywhere, plus the rule's own `ins-` alternative where it has one. */
  lemma {:induction false} T14TotalRulesReduced(heading: string)
    ensures var lc := NormText(heading);
      && (Passes(T14Total(InsDashExact), heading) <==> Contains(lc, "gesamt") || lc == "ins-")
      && (Passes(T14Total(InsDashAnywhere), heading) <==> Contains(lc, "gesamt") || Contains(lc, "ins-"))
      && (Passes(T14Total(InsgesamtExact), heading) <==> Contains(lc, "gesamt"))
  {
    TotalWordsReduceToGesamt(NormText(heading));
  }

  /** The spellings are nested: each one accepts every heading the one before
      it accepts. */
  lemma {:induction false} T14TotalRulesNested(heading: string)
    ensures Passes(T14Total(InsgesamtExact), heading) ==> Passes(T14Total(InsDashExact), heading)
    ensures Passes(T14Total(InsDashExact), heading) ==> Passes(T14Total(InsDashAnywhere), heading)
  {
    T14TotalRulesReduced(heading);
    var lc := NormText(heading);
    if lc == "ins-" {
      assert "ins-" <= lc;
    }
  }

  lemma NormOfInsX()
    ensures NormText("ins-x") == "ins-x"
  {
    StripUnchanged("ins-x");
    assert Lower("ins-x") == "ins-x";
  }

  lemma NormOfInsDash()
    ensures NormText("ins-") == "ins-"
  {
    StripUnchanged("ins-");
    assert Lower("ins-") == "ins-";
  }

  /** The spellings are not interchangeable: a heading `ins-x` is a total
      column for the demand script only, and a heading `ins-` is one for the
      main program but not for the mapping check. */
  lemma T14TotalRulesDisagree()
    ensures Passes(T14Total(InsDashAnywhere), "ins-x") && !Passes(T14Total(InsDashExact), "ins-x")
    ensures Passes(T14Total(InsDashExact), "ins-") && !Passes(T14Total(InsgesamtExact), "ins-")
  {
    NormOfInsX();
    NormOfInsDash();
    T14TotalRulesReduced("ins-x");
    T14TotalRulesReduced("ins-");
    assert "ins-" <= "ins-x";
    if Contains("ins-x", "gesamt") {
      ContainsChars("ins-x", "gesamt", 'g');
    }
    if Contains("ins-", "gesamt") {
      ContainsChars("ins-", "gesamt", 'g');
    }
  }

  // ------------------------------------------------------------- sheet T5

  /** A sheet read with a header: column labels and rows of cells. */
  datatype Sheet = Sheet(labels: seq<string>, rows: seq<seq<Cell>>)

  predicate Rectangular(s: Sheet) {
    forall i :: 0 <= i < |s.rows| ==> |s.rows[i]| == |s.labels|
  }

  /** `pd.to_numeric(column, errors='coerce').notna().any()`. */
  predicate HasNumber(s: Sheet, j: nat)
    requires Rectangular(s) && j < |s.labels|
  {
    exists i :: 0 <= i < |s.rows| && ToNumeric(s.rows[i][j]).Some?
  }

  /** The first column at or after `from` holding some number. */
  function FirstNumericColumn(s: Sheet, from: nat): (r: Option<nat>)
    requires Rectangular(s)
    ensures r.Some? ==> (from <= r.value < |s.labels| && HasNumber(s, r.value)
      && forall j :: from <= j < r.value ==> !HasNumber(s, j))
    ensures r.None? ==> forall j :: from <= j < |s.labels| ==> !HasNumber(s, j)
    decreases |s.labels| - from
  {
    if from >= |s.labels| then None
    else if HasNumber(s, from) then Some(from)
    else FirstNumericColumn(s, from + 1)
  }

  /** The district column: the last heading containing `bezirk`, else the
      first column; `None` only when the sheet has no columns (the source
      then fails on `columns[0]`). */
  function T5DistrictColumn(labels: seq<string>): (r: Option<nat>)
    ensures r.Some? ==> r.value < |labels|
    ensures r.None? <==> |labels| == 0
    ensures LastIndex(labels, T5District).Some? ==> r == LastIndex(labels, T5District)
    ensures LastIndex(labels, T5District).None? && |labels| > 0 ==> r == Some(0)
  {
    match LastIndex(labels, T5District)
    case Some(j) => Some(j)
    case None => if |labels| > 0 then Some(0) else None
  }

  /** The total column: the last heading mentioning a total, else the first
      column after the first one holding any number. */
  function T5TotalColumn(s: Sheet): (r: Option<nat>)
    requires Rectangular(s)
    ensures r.Some? ==> r.value < |s.labels|
    ensures r.Some? && !Passes(T5Total, s.labels[r.value]) ==> (1 <= r.value && HasNumber(s, r.value))
    ensures r.None? ==> forall j :: 0 <= j < |s.labels| ==> !Passes(T5Total, s.labels[j])
    ensures LastIndex(s.labels, T5Total).Some? ==> r == LastIndex(s.labels, T5Total)
    ensures LastIndex(s.labels, T5Total).None? ==> r == FirstNumericColumn(s, 1)
  {
    match LastIndex(s.labels, T5Total)
    case Some(j) => Some(j)
    case None => FirstNumericColumn(s, 1)
  }

  /** Whether column `j` holds any number: a scan down the column. */
  method ColumnHasNumber(s: Sheet, j: nat) returns (b: bool)
    requires Rectangular(s) && j < |s.labels|
    ensures b == HasNumber(s, j)
  {
    b := false;
    var i := 0;
    while i < |s.rows|
      invariant 0 <= i <= |s.rows|
      invariant !b
      invariant forall k :: 0 <= k < i ==> ToNumeric(s.rows[k][j]).None?
    {
      if ToNumeric(s.rows[i][j]).Some? {
        b := true;
        return;
      }
      i := i + 1;
    }
  }

  /** The T5 column scan of the main program: the heading loop, then the two
      fallbacks, the second of which stops at the first numeric column. */
  method DetectT5Columns(s: Sheet) returns (district: Option<nat>, total: Option<nat>)
    requires Rectangular(s)
    ensures district == T5DistrictColumn(s.labels)
    ensures total == T5TotalColumn(s)
  {
    district, total := None, None;
    ghost var districts, totals := Outcomes(s.labels, T5District), Outcomes(s.labels, T5Total);
    var i := 0;
    while i < |s.labels|
      invariant 0 <= i <= |s.labels|
      invariant district == LastTrue(districts, i)
      invariant total == LastTrue(totals, i)
    {
      var isDistrict := TestHeading(s.labels, T5District, i);
      var isTotal := TestHeading(s.labels, T5Total, i);
      LastTrueStep(districts, i, isDistrict, district);
      LastTrueStep(totals, i, isTotal, total);
      if isDistrict {
        district := Some(i);
      }
      if isTotal {
        total := Some(i);
      }
      i := i + 1;
    }
    if district.None? && |s.labels| > 0 {
      district := Some(0);
    }
    if total.None? {
      var j := 1;
      while j < |s.labels|
        invariant 1 <= j
        invariant total.None?
        invariant FirstNumericColumn(s, 1) == FirstNumericColumn(s, j)
      {
        var found := ColumnHasNumber(s, j);
        if found {
          total := Some(j);
          break;
        }
        j := j + 1;
      }
    }
  }

  /** Every spelling of the T5 total test, in the main program and in the
      diagnostics script, comes down to the heading containing `gesamt`. */
  lemma {:induction false} T5TotalTestsReduced(heading: string)
    ensures Passes(T5Total, heading) <==> Contains(Lower(heading), "gesamt")
    ensures Passes(T5TotalDiagnostics, heading) <==> Contains(Lower(heading), "gesamt")
  {
    TotalWordsReduceToGesamt(Lower(heading));
  }

  /** So the diagnostics script picks the same T5 total column as the main
      program. */
  lemma {:induction false} DiagnosticsPickSameT5Total(s: Sheet)
    requires Rectangular(s)
    ensures LastIndex(s.labels, T5TotalDiagnostics) == LastIndex(s.labels, T5Total)
  {
    forall j | 0 <= j < |s.labels|
      ensures Passes(T5TotalDiagnostics, s.labels[j]) <==> Passes(T5Total, s.labels[j])
    {
      T5TotalTestsReduced(s.labels[j]);
    }
    LastIndexOfEquivalentTests(s.labels, T5TotalDiagnostics, T5Total);
  }

  // ------------------------------------------------ district boundary file

  /** The main program's name column: `Gemeinde_n`, else `Gemeinde_s`, else
      the first heading mentioning `gemeinde`, `bezirk` or `name`. */
  function BoundaryNameColumn(labels: seq<string>): (r: Option<string>)
    ensures r.Some? ==> r.value in labels
    ensures r.None? <==> ("Gemeinde_n" !in labels && "Gemeinde_s" !in labels
      && forall j :: 0 <= j < |labels| ==> !Passes(BoundaryName, labels[j]))
    ensures "Gemeinde_n" in labels ==> r == Some("Gemeinde_n")
  {
    if "Gemeinde_n" in labels then Some("Gemeinde_n")
    else if "Gemeinde_s" in labels then Some("Gemeinde_s")
    else
      match FirstIndex(labels, BoundaryName)
      case Some(j) => Some(labels[j])
      case None => None
  }

  method FindBoundaryNameColumn(labels: seq<string>) returns (col: Option<string>)
    ensures col == BoundaryNameColumn(labels)
  {
    if "Gemeinde_n" in labels {
      return Some("Gemeinde_n");
    }
    if "Gemeinde_s" in labels {
      return Some("Gemeinde_s");
    }
    col := None;
    var i := 0;
    while i < |labels|
      invariant 0 <= i <= |labels|
      invariant col.None?
      invariant forall j :: 0 <= j < i ==> !Passes(BoundaryName, labels[j])
    {
      var isName := TestHeading(labels, BoundaryName, i);
      if isName {
        col := Some(labels[i]);
        break;
      }
      i := i + 1;
    }
  }

  /** The diagnostics script's name column: the first heading mentioning
      `bez` or `name`. */
  function DiagnosticsBoundaryNameColumn(labels: seq<string>): (r: Option<string>)
    ensures r.Some? ==> r.value in labels && Passes(BoundaryNameDiagnostics, r.value)
    ensures r.None? <==> forall j :: 0 <= j < |labels| ==> !Passes(BoundaryNameDiagnostics, labels[j])
  {
    match FirstIndex(labels, BoundaryNameDiagnostics)
    case Some(j) => Some(labels[j])
    case None => None
  }

  method FindDiagnosticsBoundaryNameColumn(labels: seq<string>) returns (col: Option<string>)
    ensures col == DiagnosticsBoundaryNameColumn(labels)
  {
    col := None;
    var i := 0;
    while i < |labels|
      invariant 0 <= i <= |labels|
      invariant col.None?
      invariant forall j :: 0 <= j < i ==> !Passes(BoundaryNameDiagnostics, labels[j])
    {
      var isName := TestHeading(labels, BoundaryNameDiagnostics, i);
      if isName {
        col := Some(labels[i]);
        break;
      }
      i := i + 1;
    }
  }

  lemma LowerGemeindeN()
    ensures Lower("Gemeinde_n") == "gemeinde_n"
  {
  }

  lemma LowerLandName()
    ensures Lower("Land_name") == "land_name"
  {
  }

  /** The two name-column choices disagree on a boundary file with the
      columns `Gemeinde_n` and `Land_name`. */
  lemma GemeindeNIsNoDiagnosticsName()
    ensures !Passes(BoundaryNameDiagnostics, "Gemeinde_n")
  {
    LowerGemeindeN();
    NoBezNoNameInGemeindeN();
  }

  lemma NoBezNoNameInGemeindeN()
    ensures !Contains("gemeinde_n", "bez") && !Contains("gemeinde_n", "name")
  {
    NoBezInGemeindeN();
    NoNameInGemeindeN();
  }

  lemma NoBezInGemeindeN()
    ensures !Contains("gemeinde_n", "bez")
  {
    var s := "gemeinde_n";
    assert 'b' !in s by {
      assert forall k :: 0 <= k < |s| ==> s[k] != 'b';
    }
    if Contains(s, "bez") {
      ContainsChars(s, "bez", 'b');
    }
  }

  lemma NoNameInGemeindeN()
    ensures !Contains("gemeinde_n", "name")
  {
    var s := "gemeinde_n";
    assert 'a' !in s by {
      assert forall k :: 0 <= k < |s| ==> s[k] != 'a';
    }
    if Contains(s, "name") {
      ContainsChars(s, "name", 'a');
    }
  }

  lemma LandNameIsDiagnosticsName()
    ensures Passes(BoundaryNameDiagnostics, "Land_name")
  {
    LowerLandName();
    assert OccursAt("land_name", "name", 5);
    ContainsIffOccurs("land_name", "name");
  }

  lemma BoundaryNameChoicesDisagree()
    ensures BoundaryNameColumn(["Gemeinde_n", "Land_name"]) == Some("Gemeinde_n")
    ensures DiagnosticsBoundaryNameColumn(["Gemeinde_n", "Land_name"]) == Some("Land_name")
  {
    var labels := ["Gemeinde_n", "Land_name"];
    GemeindeNIsNoDiagnosticsName();
    LandNameIsDiagnosticsName();
    assert labels[1..] == ["Land_name"];
    assert FirstIndex(labels[1..], BoundaryNameDiagnostics) == Some(0);
    assert FirstIndex(labels, BoundaryNameDiagnostics) == Some(1);
  }
}
