/** Spreadsheet and CSV cells as pandas holds them, with the conversions the
    pipeline applies column-wise: `astype(str)`, `pd.to_numeric(errors='coerce')`
    followed by `fillna(0).astype(int)`, the `[^0-9-]` clean-up, and the
    five-digit postal-code extraction. */
module Cells {
  import opened Wrappers
  import opened Text
  import opened Numeric

  /** A cell: an integer, a float with no fractional part, text, or missing
      (NaN). A float with a fraction behaves like the text it prints as, so it
      is held as `TextCell` of that text. */
  datatype Cell = IntCell(i: int) | FloatCell(whole: int) | TextCell(text: string) | EmptyCell

  /** `str(cell)`: `1234`, `1234.0`, the text itself, or `nan`. */
  function CellText(c: Cell): string
  {
    match c
    case IntCell(i) => IntToString(i)
    case FloatCell(w) => IntToString(w) + ".0"
    case TextCell(t) => t
    case EmptyCell => "nan"
  }

  /** `str(cell).strip().lower()`, the form header cells are compared in. */
  function NormText(s: string): string
  {
    Lower(Strip(s))
  }

  /** `pd.to_numeric(cell, errors='coerce')`; `None` is NaN. */
  function ToNumeric(c: Cell): (r: Option<real>)
    ensures c.IntCell? ==> r == Some(c.i as real)
    ensures c.FloatCell? ==> r == Some(c.whole as real)
    ensures c.EmptyCell? ==> r == None
  {
    match c
    case IntCell(i) => Some(i as real)
    case FloatCell(w) => Some(w as real)
    case TextCell(t) => ParseDecimal(Strip(t))
    case EmptyCell => None
  }

  /** `.fillna(0).astype(int)` on one value. */
  function FillZeroInt(v: Option<real>): (r: int)
    ensures v.None? ==> r == 0
    ensures v.Some? && v.value >= 0.0 ==> 0 <= r && r as real <= v.value
  {
    match v
    case None => 0
    case Some(x) => Trunc(x)
  }

  /** `pd.to_numeric(cell, errors='coerce').fillna(0).astype(int)`. */
  function NumericOrZero(c: Cell): int
  {
    FillZeroInt(ToNumeric(c))
  }

  /** `str(cell)` with everything except digits and `-` removed, then read as
      a number, with 0 for anything unreadable. */
  function CleanedInt(c: Cell): int
  {
    FillZeroInt(ToNumeric(TextCell(KeepDigitsAndMinus(CellText(c)))))
  }

  /** `str(cell).extract(r'(\d{5})')` then `pd.to_numeric`: the leftmost five
      consecutive digits of the printed cell, or NaN. */
  function ExtractPlz(c: Cell): (r: Option<int>)
    ensures r.Some? ==> 0 <= r.value < 100000
  {
    match FirstFiveDigitRun(CellText(c))
    case Some(v) => Some(v as int)
    case None => None
  }

  /** The missing cell prints as `nan`, which has no digits. */
  lemma ExtractPlzOfEmpty()
    ensures ExtractPlz(EmptyCell) == None
  {
    assert !FiveDigitsAt("nan", 0);
  }

  /** A five-digit integer cell yields itself as postal code. */
  lemma {:induction false} ExtractPlzOfInt(i: int)
    requires 10000 <= i < 100000
    ensures ExtractPlz(IntCell(i)) == Some(i)
  {
    var s := NatToString(i);
    assert Pow10(4) == 10000 && Pow10(5) == 100000;
    NatToStringLength(i, 5);
    FiveDigitsOfWholeString(s);
  }

  /** A five-digit float cell, printed as `12345.0`, also yields its value:
      the trailing `.0` stops the digit run. */
  lemma {:induction false} ExtractPlzOfFloat(w: int)
    requires 10000 <= w < 100000
    ensures ExtractPlz(FloatCell(w)) == Some(w)
  {
    var s := NatToString(w);
    assert Pow10(4) == 10000 && Pow10(5) == 100000;
    NatToStringLength(w, 5);
    var t := s + ".0";
    assert t[..5] == s;
    FiveDigitsOfPrefix(t);
  }

  lemma {:induction false} FiveDigitsOfPrefix(t: string)
    requires |t| >= 5 && AllDigits(t[..5])
    ensures FirstFiveDigitRun(t) == Some(DigitsValue(t[..5]))
  {
    assert t[0..5] == t[..5];
    assert FiveDigitsAt(t, 0);
  }

  lemma {:induction false} FiveDigitsOfWholeString(s: string)
    requires |s| == 5 && AllDigits(s)
    ensures FirstFiveDigitRun(s) == Some(DigitsValue(s))
  {
    assert s[..5] == s;
    FiveDigitsOfPrefix(s);
  }

  /** A number with `k` digits prints as `k` characters. */
  lemma {:induction false} NatToStringLength(n: nat, k: nat)
    requires k >= 1 && (k == 1 || Pow10(k - 1) <= n) && n < Pow10(k)
    ensures |NatToString(n)| == k
  {
    if n >= 10 {
      assert k >= 2;
      NatToStringLength(n / 10, k - 1);
    }
  }

  /** The clean-up leaves the text of an integer alone. */
  lemma {:induction false} KeepDigitsOfIntText(i: int)
    ensures KeepDigitsAndMinus(IntToString(i)) == IntToString(i)
  {
    if i < 0 {
      KeepAllDigits(NatToString(-i));
      assert IntToString(i) == "-" + NatToString(-i);
      assert ("-" + NatToString(-i))[1..] == NatToString(-i);
    } else {
      KeepAllDigits(NatToString(i));
    }
  }

  lemma {:induction false} KeepAllDigits(s: string)
    requires AllDigits(s)
    ensures KeepDigitsAndMinus(s) == s
  {
    if s != [] {
      KeepAllDigits(s[1..]);
      assert IsDigit(s[0]);
      assert s == [s[0]] + s[1..];
    }
  }

  /** Cleaning an integer cell gives the integer back. */
  lemma {:induction false} CleanedIntOfInt(i: int)
    ensures CleanedInt(IntCell(i)) == i
  {
    KeepDigitsOfIntText(i);
    var s := IntToString(i);
    assert Strip(s) == s by {
      if i < 0 {
        assert s[0] == '-';
        assert s[|s| - 1] == NatToString(-i)[|NatToString(-i)| - 1];
      }
      assert !IsSpace(s[0]) && !IsSpace(s[|s| - 1]);
      StripUnchanged(s);
    }
    ParseIntToString(i);
  }

  /** Cleaning a float cell keeps the digit of `.0`: a whole float prints as
      `1234.0` and is read back as ten times its value. */
  lemma {:induction false} CleanedIntOfFloat(w: nat)
    ensures CleanedInt(FloatCell(w)) == 10 * w
  {
    var s := NatToString(w);
    var t := s + ".0";
    KeepAppendDigits(s, "0");
    assert KeepDigitsAndMinus(".0") == "0";
    KeepDropsPoint(s);
    var u := s + "0";
    assert KeepDigitsAndMinus(t) == u;
    assert AllDigits(u);
    assert u[..|u| - 1] == s;
    assert DigitsValue(u) == 10 * w;
    assert Strip(u) == u by {
      assert IsDigit(u[0]) && IsDigit(u[|u| - 1]);
      StripUnchanged(u);
    }
    NoPointInDigits(u);
  }

  lemma {:induction false} KeepAppendDigits(s: string, d: string)
    requires AllDigits(s)
    ensures KeepDigitsAndMinus(s + d) == s + KeepDigitsAndMinus(d)
  {
    if s != [] {
      assert (s + d)[1..] == s[1..] + d;
      KeepAppendDigits(s[1..], d);
    } else {
      assert s + d == d;
    }
  }

  lemma {:induction false} KeepDropsPoint(s: string)
    requires AllDigits(s)
    ensures KeepDigitsAndMinus(s + ".0") == s + "0"
  {
    KeepAppendDigits(s, ".0");
    assert ".0"[1..] == "0";
  }

  lemma {:induction false} NoPointInDigits(u: string)
    requires |u| > 0 && AllDigits(u)
    ensures ParseDecimal(u) == Some(DigitsValue(u) as real)
  {
    assert forall j :: 0 <= j < |u| ==> u[j] != '.';
    assert IsDigit(u[0]);
  }
}
