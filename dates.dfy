/**
 * Calendar dates as the record form's date picker produces them, the
 * `%Y-%m-%d` text under which a record stores its date, and the `%Y-%m`
 * text that keys the month series.
 */
module Dates {
  import opened TextOrder
  import opened Wrappers

  /** A `datetime.date`: proleptic Gregorian calendar, years 1 to 9999. */
  datatype Date = Date(year: nat, month: nat, day: nat)

  predicate IsLeapYear(y: nat)
  {
    y % 4 == 0 && (y % 100 != 0 || y % 400 == 0)
  }

  function DaysInMonth(y: nat, m: nat): (n: nat)
    requires 1 <= m <= 12
    ensures 28 <= n <= 31
    ensures n == 29 <==> m == 2 && IsLeapYear(y)
  {
    if m == 2 then (if IsLeapYear(y) then 29 else 28)
    else if m == 4 || m == 6 || m == 9 || m == 11 then 30
    else 31
  }

  predicate ValidDate(d: Date)
  {
    1 <= d.year <= 9999 && 1 <= d.month <= 12 && 1 <= d.day <= DaysInMonth(d.year, d.month)
  }

  /** Chronological order of dates. */
  predicate Before(a: Date, b: Date)
  {
    a.year < b.year
    || (a.year == b.year && a.month < b.month)
    || (a.year == b.year && a.month == b.month && a.day < b.day)
  }

  // ---------------------------------------------------------------------
  // Fixed-width decimal digits
  // ---------------------------------------------------------------------

  function Pow10(w: nat): (p: nat)
    ensures p >= 1
  {
    if w == 0 then 1 else 10 * Pow10(w - 1)
  }

  predicate IsDigit(c: char)
  {
    '0' <= c <= '9'
  }

  predicate AllDigits(s: string)
  {
    forall i :: 0 <= i < |s| ==> IsDigit(s[i])
  }

  function DigitChar(d: nat): (c: char)
    requires d < 10
    ensures IsDigit(c)
  {
    (48 + d) as char
  }

  function DigitValue(c: char): (d: nat)
    requires IsDigit(c)
    ensures d < 10 && DigitChar(d) == c
  {
    (c as int - 48) as nat
  }

  /** The last `w` decimal digits of `n`, zero-padded on the left. */
  function Digits(n: nat, w: nat): (s: string)
    ensures |s| == w && AllDigits(s)
  {
    if w == 0 then [] else Digits(n / 10, w - 1) + [DigitChar(n % 10)]
  }

  /** The number a string of decimal digits denotes. */
  function ParseDigits(s: string): (n: nat)
    requires AllDigits(s)
    ensures n < Pow10(|s|)
  {
    if s == [] then 0 else 10 * ParseDigits(s[..|s| - 1]) + DigitValue(s[|s| - 1])
  }

  /** Reading back a zero-padded rendering gives the number, when it fits. */
  lemma {:induction false} ParseDigitsOfDigits(n: nat, w: nat)
    requires n < Pow10(w)
    ensures ParseDigits(Digits(n, w)) == n
  {
    if w > 0 {
      var s := Digits(n, w);
      assert n == 10 * (n / 10) + n % 10;
      assert n / 10 < Pow10(w - 1);
      assert s[..w - 1] == Digits(n / 10, w - 1);
      assert s[w - 1] == DigitChar(n % 10);
      ParseDigitsOfDigits(n / 10, w - 1);
    }
  }

  /** Rendering the number a digit string denotes gives that string back. */
  lemma {:induction false} DigitsOfParseDigits(s: string)
    requires AllDigits(s)
    ensures Digits(ParseDigits(s), |s|) == s
  {
    if s != [] {
      var n := ParseDigits(s);
      var k := |s| - 1;
      assert n / 10 == ParseDigits(s[..k]) && n % 10 == DigitValue(s[k]);
      DigitsOfParseDigits(s[..k]);
      assert s == s[..k] + [s[k]];
    }
  }

  lemma DigitsInjective(a: nat, b: nat, w: nat)
    requires a < Pow10(w) && b < Pow10(w)
    ensures Digits(a, w) == Digits(b, w) <==> a == b
  {
    ParseDigitsOfDigits(a, w);
    ParseDigitsOfDigits(b, w);
  }

  /** For numbers that fit, text order of their renderings is numeric order. */
  lemma {:induction false} DigitsOrder(a: nat, b: nat, w: nat)
    requires a < Pow10(w) && b < Pow10(w)
    ensures LexLess(Digits(a, w), Digits(b, w)) <==> a < b
  {
    if w == 0 {
      LexIrreflexive([]);
    } else {
      var x, y := Digits(a / 10, w - 1), Digits(b / 10, w - 1);
      var u, v := [DigitChar(a % 10)], [DigitChar(b % 10)];
      LexAppend(x, y, u, v);
      DigitsOrder(a / 10, b / 10, w - 1);
      DigitsInjective(a / 10, b / 10, w - 1);
      assert LexLess(u, v) <==> a % 10 < b % 10;
      assert a == 10 * (a / 10) + a % 10 && b == 10 * (b / 10) + b % 10;
    }
  }

  // ---------------------------------------------------------------------
  // Date text
  // ---------------------------------------------------------------------

  /** Text of the shape `YYYY-MM-DD`: ten characters, dashes at 4 and 7, digits elsewhere. */
  predicate DateShaped(s: string)
  {
    |s| == 10 && s[4] == '-' && s[7] == '-'
    && AllDigits(s[..4]) && AllDigits(s[5..7]) && AllDigits(s[8..])
  }

  /** `date.strftime('%Y-%m-%d')`. */
  function FormatDate(d: Date): (s: string)
    requires ValidDate(d)
    ensures DateShaped(s)
  {
    var s := Digits(d.year, 4) + "-" + Digits(d.month, 2) + "-" + Digits(d.day, 2);
    assert s[..4] == Digits(d.year, 4) && s[5..7] == Digits(d.month, 2) && s[8..] == Digits(d.day, 2);
    s
  }

  /** The `Period('M')` text of a date: `%Y-%m`. */
  function FormatMonth(d: Date): (s: string)
    requires ValidDate(d)
    ensures |s| == 7 && s[4] == '-'
    ensures AllDigits(s[..4]) && AllDigits(s[5..])
  {
    var s := Digits(d.year, 4) + "-" + Digits(d.month, 2);
    assert s[..4] == Digits(d.year, 4);
    assert s[5..] == Digits(d.month, 2);
    s
  }

  /** The date a `YYYY-MM-DD` text names, if it is a calendar date. */
  function ParseDate(s: string): (r: Option<Date>)
    ensures r.Some? ==> DateShaped(s) && ValidDate(r.value)
  {
    if DateShaped(s) then
      var d := Date(ParseDigits(s[..4]), ParseDigits(s[5..7]), ParseDigits(s[8..]));
      if ValidDate(d) then Some(d) else None
    else None
  }

  /** The month key of a date text: its first seven characters. */
  function MonthKey(s: string): (k: string)
    requires DateShaped(s)
    ensures |k| == 7 && k <= s
  {
    s[..7]
  }

  /** Parsing a rendered date gives the date back. */
  lemma ParseFormat(d: Date)
    requires ValidDate(d)
    ensures ParseDate(FormatDate(d)) == Some(d)
  {
    var s := FormatDate(d);
    assert s[..4] == Digits(d.year, 4) && s[5..7] == Digits(d.month, 2) && s[8..] == Digits(d.day, 2);
    ParseDigitsOfDigits(d.year, 4);
    ParseDigitsOfDigits(d.month, 2);
    ParseDigitsOfDigits(d.day, 2);
  }

  /** A date text that parses is the rendering of what it parses to: the form is canonical. */
  lemma FormatParse(s: string)
    requires ParseDate(s).Some?
    ensures FormatDate(ParseDate(s).value) == s
  {
    var d := ParseDate(s).value;
    DigitsOfParseDigits(s[..4]);
    DigitsOfParseDigits(s[5..7]);
    DigitsOfParseDigits(s[8..]);
    assert s == s[..4] + "-" + s[5..7] + "-" + s[8..];
  }

  /** Two valid dates render to the same text exactly when they are the same date. */
  lemma FormatInjective(a: Date, b: Date)
    requires ValidDate(a) && ValidDate(b)
    ensures FormatDate(a) == FormatDate(b) <==> a == b
  {
    ParseFormat(a);
    ParseFormat(b);
  }

  /** Two texts joined by a dash, first parts of equal length, compare part by part. */
  lemma DashedOrder(x: string, y: string, u: string, v: string)
    requires |x| == |y|
    ensures LexLess(x + "-" + u, y + "-" + v) <==> LexLess(x, y) || (x == y && LexLess(u, v))
  {
    assert x + "-" + u == x + ("-" + u);
    assert y + "-" + v == y + ("-" + v);
    LexAppend(x, y, "-" + u, "-" + v);
    LexAppend("-", "-", u, v);
    LexIrreflexive("-");
  }

  /** Text order of rendered dates is chronological order. */
  lemma FormatOrder(a: Date, b: Date)
    requires ValidDate(a) && ValidDate(b)
    ensures LexLess(FormatDate(a), FormatDate(b)) <==> Before(a, b)
  {
    var ya, yb := Digits(a.year, 4), Digits(b.year, 4);
    var ma, mb := Digits(a.month, 2), Digits(b.month, 2);
    DashedOrder(ya + "-" + ma, yb + "-" + mb, Digits(a.day, 2), Digits(b.day, 2));
    DashedOrder(ya, yb, ma, mb);
    DigitsOrder(a.year, b.year, 4);
    DigitsOrder(a.month, b.month, 2);
    DigitsOrder(a.day, b.day, 2);
    DigitsInjective(a.year, b.year, 4);
    DigitsInjective(a.month, b.month, 2);
    assert ya + "-" + ma == yb + "-" + mb <==> ya == yb && ma == mb by {
      if ya + "-" + ma == yb + "-" + mb {
        assert (ya + "-" + ma)[..4] == ya && (yb + "-" + mb)[..4] == yb;
        assert (ya + "-" + ma)[5..] == ma && (yb + "-" + mb)[5..] == mb;
      }
    }
  }

  /** The month key of a rendered date is the `%Y-%m` text of that date. */
  lemma MonthKeyOfFormat(d: Date)
    requires ValidDate(d)
    ensures MonthKey(FormatDate(d)) == FormatMonth(d)
  {
    var s := FormatDate(d);
    assert s[..7] == Digits(d.year, 4) + "-" + Digits(d.month, 2);
  }

  /** Two dates share a month key exactly when they fall in the same year and month. */
  lemma MonthKeySameMonth(a: Date, b: Date)
    requires ValidDate(a) && ValidDate(b)
    ensures MonthKey(FormatDate(a)) == MonthKey(FormatDate(b)) <==> a.year == b.year && a.month == b.month
  {
    MonthKeyOfFormat(a);
    MonthKeyOfFormat(b);
    var fa, fb := FormatMonth(a), FormatMonth(b);
    if fa == fb {
      assert fa[..4] == Digits(a.year, 4) && fb[..4] == Digits(b.year, 4);
      assert fa[5..] == Digits(a.month, 2) && fb[5..] == Digits(b.month, 2);
      DigitsInjective(a.year, b.year, 4);
      DigitsInjective(a.month, b.month, 2);
    }
  }

  /** A worked instance: 10 January 2024 is stored as `2024-01-10` and charted in month `2024-01`. */
  lemma FormatDateExample()
    ensures ValidDate(Date(2024, 1, 10))
    ensures FormatDate(Date(2024, 1, 10)) == "2024-01-10"
    ensures MonthKey(FormatDate(Date(2024, 1, 10))) == "2024-01"
  {
    var y, m, d := Digits(2024, 4), Digits(1, 2), Digits(10, 2);
    assert y == "2024" by {
      assert DigitChar(2) == '2' && DigitChar(0) == '0' && DigitChar(4) == '4';
      assert Digits(2, 1) == "2";
      assert Digits(20, 2) == "20";
      assert Digits(202, 3) == "202";
    }
    assert m == "01" by {
      assert DigitChar(0) == '0' && DigitChar(1) == '1';
      assert Digits(0, 1) == "0";
    }
    assert d == "10" by {
      assert DigitChar(0) == '0' && DigitChar(1) == '1';
      assert Digits(1, 1) == "1";
    }
    var s := FormatDate(Date(2024, 1, 10));
    assert s == y + "-" + m + "-" + d;
    assert s[..7] == "2024-01";
  }
}
