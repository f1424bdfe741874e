/**
 * Calendar arithmetic used by the analytics chart: (year, month) pairs,
 * Carbon's `subMonths` on them, Carbon's day-overflowing `subMonths` on full
 * dates, and PHP's `format('M Y')` label together with a parser for it.
 */
module Calendar {
  import opened Wrappers

  type Month = m: int | 1 <= m <= 12 witness 1

  /** A calendar month; the chart buckets records by `whereYear` and `whereMonth` alone. */
  datatype YearMonth = YearMonth(year: int, month: Month)

  /** Number of months since January of year 0: a bijection from YearMonth onto int. */
  function Ordinal(ym: YearMonth): int {
    ym.year * 12 + (ym.month - 1)
  }

  function FromOrdinal(n: int): (ym: YearMonth)
    ensures Ordinal(ym) == n
  {
    YearMonth(n / 12, n % 12 + 1)
  }

  lemma FromOrdinalOfOrdinal(ym: YearMonth)
    ensures FromOrdinal(Ordinal(ym)) == ym
  {
    var n := Ordinal(ym);
    assert n / 12 == ym.year;
  }

  lemma OrdinalInjective(a: YearMonth, b: YearMonth)
    ensures Ordinal(a) == Ordinal(b) <==> a == b
  {
    if Ordinal(a) == Ordinal(b) {
      FromOrdinalOfOrdinal(a);
      FromOrdinalOfOrdinal(b);
    }
  }

  /** The month after `ym`, with the December to January year rollover written out. */
  function NextMonth(ym: YearMonth): (r: YearMonth)
    ensures Ordinal(r) == Ordinal(ym) + 1
  {
    if ym.month == 12 then YearMonth(ym.year + 1, 1) else YearMonth(ym.year, ym.month + 1)
  }

  /** The month before `ym`, with the January to December year rollover written out. */
  function PrevMonth(ym: YearMonth): (r: YearMonth)
    ensures Ordinal(r) == Ordinal(ym) - 1
    ensures NextMonth(r) == ym
  {
    if ym.month == 1 then YearMonth(ym.year - 1, 12) else YearMonth(ym.year, ym.month - 1)
  }

  /** `subMonths(k)` on a (year, month) pair: `k` whole calendar months earlier. */
  function MonthsBack(ym: YearMonth, k: nat): (r: YearMonth)
    ensures Ordinal(r) == Ordinal(ym) - k
  {
    FromOrdinal(Ordinal(ym) - k)
  }

  /** Going back `k + 1` months is going back `k` months and then one more. */
  lemma MonthsBackStep(ym: YearMonth, k: nat)
    ensures MonthsBack(ym, 0) == ym
    ensures MonthsBack(ym, k + 1) == PrevMonth(MonthsBack(ym, k))
  {
    FromOrdinalOfOrdinal(ym);
    var p := PrevMonth(MonthsBack(ym, k));
    FromOrdinalOfOrdinal(p);
  }

  // ---------------------------------------------------------------------------
  // Full dates and Carbon's overflowing month subtraction
  // ---------------------------------------------------------------------------

  /** Gregorian leap year (proleptic, as PHP's date functions use it). */
  predicate IsLeapYear(y: int) {
    y % 4 == 0 && (y % 100 != 0 || y % 400 == 0)
  }

  function DaysInMonth(year: int, month: Month): (n: int)
    ensures 28 <= n <= 31
    ensures n == 29 <==> month == 2 && IsLeapYear(year)
    ensures month == 2 && !IsLeapYear(year) ==> n == 28
    ensures month == 4 || month == 6 || month == 9 || month == 11 ==> n == 30
    ensures month != 2 && month != 4 && month != 6 && month != 9 && month != 11 ==> n == 31
  {
    if month == 2 then (if IsLeapYear(year) then 29 else 28)
    else if month == 4 || month == 6 || month == 9 || month == 11 then 30
    else 31
  }

  /** A calendar date (the time of day plays no part in the chart). */
  datatype Date = Date(year: int, month: Month, day: int) {
    predicate Valid() {
      1 <= day <= DaysInMonth(year, month)
    }

    function YM(): YearMonth {
      YearMonth(year, month)
    }
  }

  /**
   * Carbon's default `subMonths(k)`: move the month back by `k` and keep the
   * day of month; a day past the end of the target month overflows into the
   * following month (31 March minus one month is 3 March).
   */
  function SubMonthsOverflow(d: Date, k: nat): (r: Date)
    requires d.Valid()
    ensures r.Valid()
    ensures d.day <= DaysInMonth(MonthsBack(d.YM(), k).year, MonthsBack(d.YM(), k).month) ==>
              r.YM() == MonthsBack(d.YM(), k) && r.day == d.day
    ensures d.day > DaysInMonth(MonthsBack(d.YM(), k).year, MonthsBack(d.YM(), k).month) ==>
              r.YM() == NextMonth(MonthsBack(d.YM(), k)) && 1 <= r.day <= 3
  {
    var target := MonthsBack(d.YM(), k);
    var len := DaysInMonth(target.year, target.month);
    if d.day <= len then
      Date(target.year, target.month, d.day)
    else
      var next := NextMonth(target);
      Date(next.year, next.month, d.day - len)
  }

  // ---------------------------------------------------------------------------
  // Labels: PHP's format('M Y')
  // ---------------------------------------------------------------------------

  const MonthAbbreviations: seq<string> :=
    ["Jan", "Feb", "Mar", "Apr", "May", "Jun", "Jul", "Aug", "Sep", "Oct", "Nov", "Dec"]

  /** Format character `M`: the three-letter English month abbreviation. */
  function MonthAbbrev(m: Month): (s: string)
    ensures |s| == 3
  {
    MonthAbbreviations[m - 1]
  }

  predicate IsDigit(c: char) {
    '0' <= c <= '9'
  }

  predicate AllDigits(s: string) {
    forall i :: 0 <= i < |s| ==> IsDigit(s[i])
  }

  function DigitChar(d: int): (c: char)
    requires 0 <= d < 10
    ensures IsDigit(c)
  {
    ('0' as int + d) as char
  }

  /** Decimal notation of `n` without leading zeros. */
  function Digits(n: nat): (s: string)
    ensures 1 <= |s| && AllDigits(s)
    ensures n < 10 ==> |s| == 1
    ensures n < 100 ==> |s| <= 2
    ensures n < 1000 ==> |s| <= 3
    ensures n < 10000 ==> |s| <= 4
  {
    if n < 10 then [DigitChar(n)] else Digits(n / 10) + [DigitChar(n % 10)]
  }

  function Zeros(k: nat): (s: string)
    ensures |s| == k && AllDigits(s)
  {
    if k == 0 then "" else "0" + Zeros(k - 1)
  }

  /** Format character `Y`: at least four digits, with a leading `-` for years before year 0. */
  function YearText(y: int): (s: string)
    ensures |s| >= 4
    ensures 0 <= y <= 9999 ==> |s| == 4 && AllDigits(s)
  {
    if y < 0 then "-" + Padded4(-y) else Padded4(y)
  }

  /** `n` in decimal, left-padded with zeros to at least four digits. */
  function Padded4(n: nat): (s: string)
    ensures |s| >= 4 && AllDigits(s)
    ensures n < 10000 ==> |s| == 4
  {
    var digits := Digits(n);
    if |digits| < 4 then Zeros(4 - |digits|) + digits else digits
  }

  /** `$month->format('M Y')`: e.g. "Jan 2025". */
  function Label(ym: YearMonth): (s: string)
    ensures |s| >= 8 && s[..3] == MonthAbbrev(ym.month) && s[3] == ' '
    ensures 0 <= ym.year <= 9999 ==> |s| == 8 && AllDigits(s[4..])
  {
    MonthAbbrev(ym.month) + " " + YearText(ym.year)
  }

  // ---- reading a label back ----

  function DigitValue(c: char): int
    requires IsDigit(c)
  {
    c as int - '0' as int
  }

  /** The value of a string of decimal digits (leading zeros allowed). */
  function DigitsValue(s: string): (v: nat)
    requires AllDigits(s)
  {
    if s == [] then 0 else DigitsValue(s[..|s| - 1]) * 10 + DigitValue(s[|s| - 1])
  }

  function MonthFromAbbrev(s: string, m: Month): (r: Option<Month>)
    ensures r.Some? ==> MonthAbbrev(r.value) == s
    ensures (exists k: Month :: m <= k && MonthAbbrev(k) == s) ==> r.Some?
    decreases 12 - m
  {
    if MonthAbbrev(m) == s then Some(m)
    else if m == 12 then None
    else MonthFromAbbrev(s, m + 1)
  }

  /** Reads the text of format character `Y` back into a year. */
  function ParseYear(t: string): (r: Option<int>)
    ensures r.Some? ==> |t| >= 1
  {
    if |t| > 1 && t[0] == '-' && AllDigits(t[1..]) then
      var v: int := DigitsValue(t[1..]);
      Some(-v)
    else if |t| >= 1 && AllDigits(t) then
      Some(DigitsValue(t))
    else
      None
  }

  /** Reads "Mmm YYYY" (or "Mmm -YYYY") back into the month it names. */
  function ParseLabel(s: string): (r: Option<YearMonth>)
    ensures r.Some? ==> |s| >= 5 && s[..3] == MonthAbbrev(r.value.month) && s[3] == ' '
  {
    if |s| < 5 || s[3] != ' ' then None
    else
      match MonthFromAbbrev(s[..3], 1)
      case None => None
      case Some(m) =>
        match ParseYear(s[4..])
        case None => None
        case Some(y) => Some(YearMonth(y, m))
  }

  lemma {:induction false} DigitsValueOfDigits(n: nat)
    ensures DigitsValue(Digits(n)) == n
  {
    if n >= 10 {
      var s := Digits(n);
      assert s[..|s| - 1] == Digits(n / 10) && s[|s| - 1] == DigitChar(n % 10);
      DigitsValueOfDigits(n / 10);
      assert DigitsValue(s) == (n / 10) * 10 + n % 10;
    }
  }

  lemma {:induction false} DigitsValueLeadingZeros(k: nat, s: string)
    requires AllDigits(s)
    ensures AllDigits(Zeros(k) + s) && DigitsValue(Zeros(k) + s) == DigitsValue(s)
  {
    if k > 0 {
      DigitsValueLeadingZeros(k - 1, s);
      DigitsValueLeadingZero(Zeros(k - 1) + s);
      assert Zeros(k) + s == "0" + (Zeros(k - 1) + s);
    } else {
      assert Zeros(k) + s == s;
    }
  }

  lemma {:induction false} DigitsValueLeadingZero(s: string)
    requires AllDigits(s)
    ensures AllDigits("0" + s) && DigitsValue("0" + s) == DigitsValue(s)
  {
    if s != [] {
      var t := "0" + s;
      assert t[..|t| - 1] == "0" + s[..|s| - 1];
      DigitsValueLeadingZero(s[..|s| - 1]);
    }
  }

  lemma Padded4Value(n: nat)
    ensures DigitsValue(Padded4(n)) == n
  {
    var digits := Digits(n);
    DigitsValueOfDigits(n);
    if |digits| < 4 {
      DigitsValueLeadingZeros(4 - |digits|, digits);
    }
  }

  lemma YearTextRoundTrip(y: int)
    ensures ParseYear(YearText(y)) == Some(y)
  {
    if y < 0 {
      NegativeYearRoundTrip(-y);
    } else {
      var p := Padded4(y);
      Padded4Value(y);
      assert YearText(y) == p && IsDigit(p[0]);
    }
  }

  lemma NegativeYearRoundTrip(n: nat)
    requires n > 0
    ensures ParseYear("-" + Padded4(n)) == Some(-(n as int))
  {
    var p := Padded4(n);
    var t := "-" + p;
    Padded4Value(n);
    assert t[1..] == p;
  }

  lemma MonthFromAbbrevFinds(m: Month)
    ensures MonthFromAbbrev(MonthAbbrev(m), 1) == Some(m)
  {
    var found := MonthFromAbbrev(MonthAbbrev(m), 1);
    assert found.Some?;
    AbbrevInjective(found.value, m);
  }

  /** Every label names its month: reading it back gives the (year, month) it was made from. */
  lemma LabelRoundTrip(ym: YearMonth)
    ensures ParseLabel(Label(ym)) == Some(ym)
  {
    var s := Label(ym);
    assert s[..3] == MonthAbbrev(ym.month);
    assert s[4..] == YearText(ym.year);
    MonthFromAbbrevFinds(ym.month);
    YearTextRoundTrip(ym.year);
  }

  lemma AbbrevInjective(a: Month, b: Month)
    requires MonthAbbrev(a) == MonthAbbrev(b)
    ensures a == b
  {
  }

  /** Two different months never share a label. */
  lemma LabelInjective(a: YearMonth, b: YearMonth)
    ensures Label(a) == Label(b) <==> a == b
  {
    LabelRoundTrip(a);
    LabelRoundTrip(b);
  }
}
