/** String operations the pipeline applies to cells, column labels and file
    lines: Python's `in`, `str.strip`, `str.lower`, `str.replace`, `str.count`,
    the `(\d{5})` extraction, the `[^0-9-]` clean-up, and the number parsers
    behind `float()`, `int()` and `pd.to_numeric`. Characters are Latin-1, the
    encoding the station registry is read with. */
module Text {
  import opened Wrappers

  predicate IsDigit(c: char) { '0' <= c <= '9' }

  function DigitValue(c: char): nat
    requires IsDigit(c)
  {
    (c as int) - ('0' as int)
  }

  function DigitChar(d: nat): (c: char)
    requires d < 10
    ensures IsDigit(c) && DigitValue(c) == d
  {
    (('0' as int) + d) as char
  }

  /** Python's `str.isspace()` on the Latin-1 range. */
  predicate IsSpace(c: char) {
    var n := c as int;
    n == 32 || 9 <= n <= 13 || 28 <= n <= 31 || n == 133 || n == 160
  }

  /** Python's `str.lower()` on one Latin-1 character. */
  function LowerChar(c: char): char {
    var n := c as int;
    if 65 <= n <= 90 || (192 <= n <= 222 && n != 215) then (n + 32) as char else c
  }

  function Lower(s: string): (r: string)
    ensures |r| == |s|
    ensures forall i :: 0 <= i < |s| ==> r[i] == LowerChar(s[i])
  {
    seq(|s|, i requires 0 <= i < |s| => LowerChar(s[i]))
  }

  /** The index of the first character at or after `i` that is not white
      space, or the length when there is none. */
  function SkipSpace(s: string, i: nat): (k: nat)
    requires i <= |s|
    ensures i <= k <= |s|
    ensures forall m :: i <= m < k ==> IsSpace(s[m])
    ensures k < |s| ==> !IsSpace(s[k])
    decreases |s| - i
  {
    if i < |s| && IsSpace(s[i]) then SkipSpace(s, i + 1) else i
  }

  /** The end of `s[lo..j]` once its trailing white space is dropped. */
  function SkipSpaceBack(s: string, lo: nat, j: nat): (k: nat)
    requires lo <= j <= |s|
    ensures lo <= k <= j
    ensures forall m :: k <= m < j ==> IsSpace(s[m])
    ensures k > lo ==> !IsSpace(s[k - 1])
    decreases j
  {
    if j > lo && IsSpace(s[j - 1]) then SkipSpaceBack(s, lo, j - 1) else j
  }

  /** Where `str.strip()` starts: the first character that is not white space. */
  function StripStart(s: string): (i: nat)
    ensures i <= |s|
    ensures forall k :: 0 <= k < i ==> IsSpace(s[k])
    ensures i < |s| ==> !IsSpace(s[i])
  {
    SkipSpace(s, 0)
  }

  /** Where `str.strip()` ends: after the last character that is not white space. */
  function StripEnd(s: string): (j: nat)
    ensures StripStart(s) <= j <= |s|
    ensures forall k :: j <= k < |s| ==> IsSpace(s[k])
    ensures j > StripStart(s) ==> !IsSpace(s[j - 1])
  {
    SkipSpaceBack(s, StripStart(s), |s|)
  }

  /** Python's `str.strip()`: leading and trailing white space dropped, so
      that what is left neither starts nor ends with white space. */
  function Strip(s: string): (r: string)
    ensures |r| == StripEnd(s) - StripStart(s)
    ensures |r| > 0 ==> !IsSpace(r[0]) && !IsSpace(r[|r| - 1])
  {
    s[StripStart(s)..StripEnd(s)]
  }

  /** Text that neither starts nor ends with white space is its own strip. */
  lemma {:induction false} StripUnchanged(s: string)
    requires |s| > 0 && !IsSpace(s[0]) && !IsSpace(s[|s| - 1])
    ensures Strip(s) == s
  {
    assert StripStart(s) == 0;
    assert StripEnd(s) == |s|;
  }

  /** `t in s` for Python strings. */
  predicate Contains(s: string, t: string)
    decreases |s|
  {
    t <= s || (|s| > 0 && Contains(s[1..], t))
  }

  predicate OccursAt(s: string, t: string, i: int) {
    0 <= i && i + |t| <= |s| && s[i..i + |t|] == t
  }

  lemma {:induction false} ContainsIffOccurs(s: string, t: string)
    ensures Contains(s, t) <==> exists i :: OccursAt(s, t, i)
    decreases |s|
  {
    if t <= s {
      assert OccursAt(s, t, 0);
    } else if |s| > 0 {
      ContainsIffOccurs(s[1..], t);
      if Contains(s[1..], t) {
        var i :| OccursAt(s[1..], t, i);
        assert s[i + 1..i + 1 + |t|] == s[1..][i..i + |t|];
        assert OccursAt(s, t, i + 1);
      }
      assert !OccursAt(s, t, 0);
      if i :| OccursAt(s, t, i) {
        assert s[1..][i - 1..i - 1 + |t|] == s[i..i + |t|];
        assert OccursAt(s[1..], t, i - 1);
      }
    }
  }

  /** Containment is transitive: a string containing `t` contains every part of `t`. */
  lemma {:induction false} ContainsTransitive(s: string, t: string, u: string)
    requires Contains(s, t) && Contains(t, u)
    ensures Contains(s, u)
  {
    ContainsIffOccurs(s, t);
    ContainsIffOccurs(t, u);
    var i :| OccursAt(s, t, i);
    var j :| OccursAt(t, u, j);
    forall m | j <= m < j + |u|
      ensures t[m] == s[i + m]
    {
      assert t[m] == s[i..i + |t|][m];
    }
    assert s[i + j..i + j + |u|] == t[j..j + |u|];
    assert OccursAt(s, u, i + j);
    ContainsIffOccurs(s, u);
  }

  /** Every character of a contained string occurs in the containing one. */
  lemma {:induction false} ContainsChars(s: string, t: string, c: char)
    requires Contains(s, t) && c in t
    ensures c in s
  {
    ContainsIffOccurs(s, t);
    var i :| OccursAt(s, t, i);
    var k :| 0 <= k < |t| && t[k] == c;
    assert s[i..i + |t|][k] == s[i + k];
  }

  /** `str.count(c)` for a single character. */
  function CountChar(s: string, c: char): nat
  {
    if s == [] then 0 else CountChar(s[..|s| - 1], c) + (if s[|s| - 1] == c then 1 else 0)
  }

  /** `str.replace(a, b)` for single characters. */
  function ReplaceChar(s: string, a: char, b: char): (r: string)
    ensures |r| == |s|
    ensures forall i :: 0 <= i < |s| ==> r[i] == (if s[i] == a then b else s[i])
  {
    seq(|s|, i requires 0 <= i < |s| => if s[i] == a then b else s[i])
  }

  predicate AllDigits(s: string) {
    forall i :: 0 <= i < |s| ==> IsDigit(s[i])
  }

  function Pow10(n: nat): (r: nat)
    ensures r >= 1
  {
    if n == 0 then 1 else 10 * Pow10(n - 1)
  }

  /** The number a string of decimal digits denotes. */
  function DigitsValue(s: string): nat
    requires AllDigits(s)
  {
    if s == [] then 0 else 10 * DigitsValue(s[..|s| - 1]) + DigitValue(s[|s| - 1])
  }

  lemma {:induction false} DigitsValueBound(s: string)
    requires AllDigits(s)
    ensures DigitsValue(s) < Pow10(|s|)
  {
    if s != [] {
      DigitsValueBound(s[..|s| - 1]);
    }
  }

  /** Reading the first digit off the front of a digit string. */
  lemma {:induction false} DigitsValueHead(s: string)
    requires AllDigits(s) && |s| > 0
    ensures DigitsValue(s) == DigitValue(s[0]) * Pow10(|s| - 1) + DigitsValue(s[1..])
  {
    if |s| > 1 {
      var t := s[..|s| - 1];
      DigitsValueHead(t);
      var u := s[1..];
      assert t[1..] == u[..|u| - 1];
      assert t[0] == s[0] && u[|u| - 1] == s[|s| - 1];
      HeadArithmetic(DigitValue(s[0]), Pow10(|s| - 2), DigitsValue(t[1..]), DigitValue(s[|s| - 1]),
        DigitsValue(t), DigitsValue(u), DigitsValue(s));
    } else {
      assert s[1..] == [];
    }
  }

  /** The arithmetic step of `DigitsValueHead`: with `vt = d*p + rest`,
      `vu = 10*rest + last` and `vs = 10*vt + last`, `vs = d*(10*p) + vu`. */
  lemma {:induction false} HeadArithmetic(d: int, p: int, rest: int, last: int, vt: int, vu: int, vs: int)
    requires vt == d * p + rest && vu == 10 * rest + last && vs == 10 * vt + last
    ensures vs == d * (10 * p) + vu
  {
    assert 10 * (d * p) == d * (10 * p);
  }

  /** Python's `str(n)` for a natural number. */
  function NatToString(n: nat): (r: string)
    ensures |r| >= 1 && AllDigits(r) && DigitsValue(r) == n
    ensures n >= 10 ==> r[0] != '0'
  {
    if n < 10 then [DigitChar(n)]
    else
      var p := NatToString(n / 10);
      var r := p + [DigitChar(n % 10)];
      assert r[..|r| - 1] == p;
      r
  }

  /** Python's `str(i)` for an integer. */
  function IntToString(i: int): string
  {
    if i < 0 then "-" + NatToString(-i) else NatToString(i)
  }

  /** The five digits starting at position `i`. */
  predicate FiveDigitsAt(s: string, i: int) {
    0 <= i && i + 5 <= |s| && AllDigits(s[i..i + 5])
  }

  /** The first position at or after `i` where five digits start, or `|s|`. */
  function FiveDigitIndex(s: string, i: nat): (k: nat)
    requires i <= |s|
    ensures i <= k <= |s|
    ensures k < |s| ==> FiveDigitsAt(s, k)
    ensures forall j :: i <= j < k ==> !FiveDigitsAt(s, j)
    decreases |s| - i
  {
    if i + 5 > |s| then |s|
    else if AllDigits(s[i..i + 5]) then i
    else FiveDigitIndex(s, i + 1)
  }

  /** `str.extract(r'(\d{5})')`: the leftmost run of five digits, read as a
      number, or `None` (NaN) when the text has no five consecutive digits. */
  function FirstFiveDigitRun(s: string): (r: Option<nat>)
    ensures r.None? ==> forall i :: !FiveDigitsAt(s, i)
    ensures r.Some? ==> r.value < 100000 && exists i :: (FiveDigitsAt(s, i)
      && (forall j :: 0 <= j < i ==> !FiveDigitsAt(s, j))
      && r.value == DigitsValue(s[i..i + 5]))
  {
    var k := FiveDigitIndex(s, 0);
    if k < |s| then
      DigitsValueBound(s[k..k + 5]);
      assert FiveDigitsAt(s, k);
      assert Pow10(5) == 100000;
      Some(DigitsValue(s[k..k + 5]))
    else None
  }

  /** `str.replace(r"[^0-9-]", "", regex=True)`: keeps the ASCII digits and
      the minus sign, in order. */
  function KeepDigitsAndMinus(s: string): (r: string)
    ensures forall i :: 0 <= i < |r| ==> IsDigit(r[i]) || r[i] == '-'
    ensures |r| <= |s|
  {
    if s == [] then []
    else
      var rest := KeepDigitsAndMinus(s[1..]);
      if IsDigit(s[0]) || s[0] == '-' then [s[0]] + rest else rest
  }

  /** An unsigned decimal literal: digits, optionally a point and more digits,
      at least one digit in all. */
  function ParseUnsignedDecimal(s: string): (r: Option<real>)
    ensures r.Some? ==> r.value >= 0.0
  {
    var k := IndexOfPoint(s);
    if k == |s| then
      if |s| > 0 && AllDigits(s) then Some(DigitsValue(s) as real) else None
    else
      var ip, fp := s[..k], s[k + 1..];
      if AllDigits(ip) && AllDigits(fp) && |ip| + |fp| > 0 then
        Some(DigitsValue(ip) as real + DigitsValue(fp) as real / Pow10(|fp|) as real)
      else None
  }

  function IndexOfPoint(s: string): (k: nat)
    ensures k <= |s| && (k < |s| ==> s[k] == '.')
    ensures forall j :: 0 <= j < k ==> s[j] != '.'
  {
    if s == [] then 0 else if s[0] == '.' then 0 else 1 + IndexOfPoint(s[1..])
  }

  /** A signed decimal literal as `float()` and `pd.to_numeric` read it
      (exponents, `inf`, `nan` and digit separators are not modelled). */
  function ParseDecimal(s: string): (r: Option<real>)
  {
    if |s| > 0 && (s[0] == '-' || s[0] == '+') then
      match ParseUnsignedDecimal(s[1..])
      case Some(v) => Some(if s[0] == '-' then -v else v)
      case None => None
    else ParseUnsignedDecimal(s)
  }

  lemma {:induction false} NatToStringHasNoPoint(n: nat)
    ensures IndexOfPoint(NatToString(n)) == |NatToString(n)|
  {
    var s := NatToString(n);
    assert forall j :: 0 <= j < |s| ==> s[j] != '.';
  }

  /** Parsing the text `str(i)` of an integer gives back `i`. */
  lemma {:induction false} ParseIntToString(i: int)
    ensures ParseDecimal(IntToString(i)) == Some(i as real)
  {
    if i < 0 {
      var s := IntToString(i);
      assert s[1..] == NatToString(-i);
      NatToStringHasNoPoint(-i);
    } else {
      var s := NatToString(i);
      NatToStringHasNoPoint(i);
      assert s[0] != '-' && s[0] != '+' by { assert IsDigit(s[0]); }
    }
  }

  /** Digits with single underscores between them, as Python's `int()` accepts. */
  predicate UnderscoredDigits(s: string) {
    |s| > 0 && IsDigit(s[0]) && IsDigit(s[|s| - 1])
    && (forall i :: 0 <= i < |s| ==> IsDigit(s[i]) || s[i] == '_')
    && (forall i :: 0 <= i < |s| - 1 && s[i] == '_' ==> IsDigit(s[i + 1]))
  }

  function RemoveUnderscores(s: string): (r: string)
    requires forall i :: 0 <= i < |s| ==> IsDigit(s[i]) || s[i] == '_'
    ensures AllDigits(r)
  {
    if s == [] then [] else (if s[0] == '_' then [] else [s[0]]) + RemoveUnderscores(s[1..])
  }

  /** Python's `int(s)` on a string: surrounding white space, an optional sign,
      and digits with single underscores; `None` where Python raises ValueError. */
  function PyInt(s: string): (r: Option<int>)
  {
    var t := Strip(s);
    if |t| > 0 && (t[0] == '+' || t[0] == '-') then
      var u := t[1..];
      if UnderscoredDigits(u) then
        var v: int := DigitsValue(RemoveUnderscores(u));
        Some(if t[0] == '-' then -v else v)
      else None
    else if UnderscoredDigits(t) then Some(DigitsValue(RemoveUnderscores(t)))
    else None
  }

  lemma {:induction false} RemoveUnderscoresOfDigits(s: string)
    requires AllDigits(s)
    ensures RemoveUnderscores(s) == s
  {
    if s != [] {
      RemoveUnderscoresOfDigits(s[1..]);
    }
  }

  /** On a plain string of digits `int()` reads the digits. */
  lemma {:induction false} PyIntOfDigits(s: string)
    requires |s| > 0 && AllDigits(s)
    ensures PyInt(s) == Some(DigitsValue(s) as int)
  {
    assert IsDigit(s[0]) && IsDigit(s[|s| - 1]);
    StripUnchanged(s);
    PyIntOfPaddedDigits(s);
  }

  /** `int()` ignores the white space around a string of digits. */
  lemma {:induction false} PyIntOfPaddedDigits(s: string)
    requires |Strip(s)| > 0 && AllDigits(Strip(s))
    ensures PyInt(s) == Some(DigitsValue(Strip(s)) as int)
  {
    var t := Strip(s);
    assert IsDigit(t[0]);
    RemoveUnderscoresOfDigits(t);
  }

  /** Python's `<` on strings: code-point lexicographic order. */
  predicate LexLess(a: string, b: string)
    decreases |a|
  {
    if |a| == 0 then |b| > 0
    else if |b| == 0 then false
    else if a[0] != b[0] then a[0] < b[0]
    else LexLess(a[1..], b[1..])
  }

  /** Python's `<=` on strings. */
  predicate LexLessEq(a: string, b: string) {
    a == b || LexLess(a, b)
  }

  lemma {:induction false} LexLessIrreflexive(a: string)
    ensures !LexLess(a, a)
  {
    if |a| > 0 { LexLessIrreflexive(a[1..]); }
  }

  lemma {:induction false} LexLessTransitive(a: string, b: string, c: string)
    requires LexLess(a, b) && LexLess(b, c)
    ensures LexLess(a, c)
    decreases |a|
  {
    if |a| > 0 && |b| > 0 && |c| > 0 && a[0] == b[0] && b[0] == c[0] {
      LexLessTransitive(a[1..], b[1..], c[1..]);
    }
  }

  lemma {:induction false} LexLessTotal(a: string, b: string)
    ensures a == b || LexLess(a, b) || LexLess(b, a)
    decreases |a|
  {
    if |a| > 0 && |b| > 0 && a[0] == b[0] {
      LexLessTotal(a[1..], b[1..]);
      if a[1..] == b[1..] {
        assert a == [a[0]] + a[1..] && b == [b[0]] + b[1..];
      }
    }
  }

  lemma {:induction false} LexLessAsymmetric(a: string, b: string)
    requires LexLess(a, b)
    ensures !LexLess(b, a) && a != b
  {
    if LexLess(b, a) {
      LexLessTransitive(a, b, a);
      LexLessIrreflexive(a);
    }
    if a == b { LexLessIrreflexive(a); }
  }

  /** A smaller leading digit makes a smaller number, whatever follows. */
  lemma {:induction false} LeadingDigitDecides(a: string, b: string)
    requires AllDigits(a) && AllDigits(b) && |a| == |b| > 0 && a[0] < b[0]
    ensures DigitsValue(a) < DigitsValue(b)
  {
    DigitsValueHead(a);
    DigitsValueHead(b);
    DigitsValueBound(a[1..]);
    PlaceValueOrder(DigitValue(a[0]), DigitValue(b[0]),
      DigitsValue(a[1..]), DigitsValue(b[1..]), Pow10(|a| - 1));
  }

  lemma {:induction false} PlaceValueOrder(da: nat, db: nat, ra: nat, rb: nat, p: nat)
    requires da < db && ra < p
    ensures da * p + ra < db * p + rb
  {
    MulMonotone(da + 1, db, p);
    assert (da + 1) * p == da * p + p;
  }

  lemma {:induction false} MulMonotone(x: nat, y: nat, p: nat)
    requires x <= y
    ensures x * p <= y * p
  {
  }

  /** On digit strings of equal length, string order is numeric order. */
  lemma {:induction false} LexLessDigits(a: string, b: string)
    requires AllDigits(a) && AllDigits(b) && |a| == |b|
    ensures LexLess(a, b) <==> DigitsValue(a) < DigitsValue(b)
    decreases |a|
  {
    if |a| > 0 {
      if a[0] < b[0] {
        LeadingDigitDecides(a, b);
      } else if b[0] < a[0] {
        LeadingDigitDecides(b, a);
      } else {
        DigitsValueHead(a);
        DigitsValueHead(b);
        LexLessDigits(a[1..], b[1..]);
      }
    }
  }

  // ------------------------------------------------- sorted(set(strings))

  predicate StrictlySorted(s: seq<string>) {
    forall i, j :: 0 <= i < j < |s| ==> LexLess(s[i], s[j])
  }

  /** Put `x` into its place in a strictly sorted list, unless it is there. */
  function InsertSorted(x: string, s: seq<string>): seq<string>
  {
    if s == [] then [x]
    else if x == s[0] then s
    else if LexLess(x, s[0]) then [x] + s
    else [s[0]] + InsertSorted(x, s[1..])
  }

  lemma {:induction false} InsertSortedSpec(x: string, s: seq<string>)
    requires StrictlySorted(s)
    ensures StrictlySorted(InsertSorted(x, s))
    ensures forall y :: y in InsertSorted(x, s) <==> y == x || y in s
  {
    if s != [] && x != s[0] {
      var r := InsertSorted(x, s);
      if LexLess(x, s[0]) {
        forall i, j | 0 <= i < j < |r| ensures LexLess(r[i], r[j]) {
          if i == 0 && j > 1 {
            LexLessTransitive(x, s[0], s[j - 1]);
          }
        }
      } else {
        LexLessTotal(x, s[0]);
        var rest := InsertSorted(x, s[1..]);
        InsertSortedSpec(x, s[1..]);
        assert s == [s[0]] + s[1..];
        forall y | y in rest ensures LexLess(s[0], y) {
          if y != x {
            var k :| 0 <= k < |s[1..]| && s[1..][k] == y;
            assert s[k + 1] == y;
          }
        }
        forall i, j | 0 <= i < j < |r| ensures LexLess(r[i], r[j]) {
          if i == 0 {
            assert r[j] == rest[j - 1];
            assert r[j] in rest;
          } else {
            assert r[i] == rest[i - 1] && r[j] == rest[j - 1];
          }
        }
      }
    }
  }

  /** `sorted(set(s))` for strings. */
  function SortedSet(s: seq<string>): seq<string>
  {
    if s == [] then [] else InsertSorted(s[|s| - 1], SortedSet(s[..|s| - 1]))
  }

  /** `sorted(set(s))` is strictly increasing and holds exactly the elements
      of `s`, so each of them once. */
  lemma {:induction false} SortedSetSpec(s: seq<string>)
    ensures StrictlySorted(SortedSet(s))
    ensures forall y :: y in SortedSet(s) <==> y in s
  {
    if s != [] {
      var prefix := s[..|s| - 1];
      SortedSetSpec(prefix);
      InsertSortedSpec(s[|s| - 1], SortedSet(prefix));
      assert s == prefix + [s[|s| - 1]];
    }
  }
}
