/**
 * Proleptic Gregorian calendar arithmetic and the `%Y-%m-%d` / `%H:%M`
 * renderings that the prompt builder uses, following the conventions of
 * Python's `datetime` module: ordinal 1 is 0001-01-01, weekday 0 is Monday,
 * and `date + timedelta(days=n)` moves the ordinal by n.
 */
module Calendar {

  import opened Wrappers

  datatype Date = Date(year: int, month: int, day: int)

  /** A naive local date-time; seconds and microseconds never reach any output. */
  datatype Instant = Instant(date: Date, hour: int, minute: int)

  predicate IsLeapYear(y: int) {
    y % 4 == 0 && (y % 100 != 0 || y % 400 == 0)
  }

  function DaysInMonth(y: int, m: int): (n: int)
    requires 1 <= m <= 12
    ensures 28 <= n <= 31
    ensures m == 2 ==> (n == 29 <==> IsLeapYear(y))
  {
    if m == 2 then (if IsLeapYear(y) then 29 else 28)
    else if m == 4 || m == 6 || m == 9 || m == 11 then 30
    else 31
  }

  function DaysInYear(y: int): int {
    if IsLeapYear(y) then 366 else 365
  }

  predicate ValidDate(d: Date) {
    1 <= d.year && 1 <= d.month <= 12 && 1 <= d.day <= DaysInMonth(d.year, d.month)
  }

  predicate ValidInstant(i: Instant) {
    ValidDate(i.date) && 0 <= i.hour < 24 && 0 <= i.minute < 60
  }

  /** Days in the years 1 .. y-1 (Python's `_days_before_year`). */
  function DaysBeforeYear(y: int): int
    requires 1 <= y
  {
    var p := y - 1;
    p * 365 + p / 4 - p / 100 + p / 400
  }

  /** Days in the months 1 .. m-1 of year y (Python's `_days_before_month`). */
  function DaysBeforeMonth(y: int, m: int): int
    requires 1 <= m <= 12
  {
    [0, 31, 59, 90, 120, 151, 181, 212, 243, 273, 304, 334][m - 1]
      + (if m > 2 && IsLeapYear(y) then 1 else 0)
  }

  /** Python's `date.toordinal()`. */
  function Ordinal(d: Date): int
    requires ValidDate(d)
  {
    DaysBeforeYear(d.year) + DaysBeforeMonth(d.year, d.month) + d.day
  }

  /** The largest ordinal Python's `date` accepts: that of 9999-12-31. */
  const MaxOrdinal: int := 3652059

  lemma MaxOrdinalIsLastDay()
    ensures ValidDate(Date(9999, 12, 31)) && Ordinal(Date(9999, 12, 31)) == MaxOrdinal
    ensures MaxOrdinal == DaysBeforeYear(10000)
  {
  }

  lemma DaysBeforeNextYear(y: int)
    requires 1 <= y
    ensures DaysBeforeYear(y + 1) == DaysBeforeYear(y) + DaysInYear(y)
  {
    var p := y - 1;
    QuotientStep(p, 4);
    QuotientStep(p, 100);
    QuotientStep(p, 400);
    DivisibilityChain(y);
    var bump4 := if y % 4 == 0 then 1 else 0;
    var bump100 := if y % 100 == 0 then 1 else 0;
    var bump400 := if y % 400 == 0 then 1 else 0;
    assert DaysInYear(y) == 365 + bump4 - bump100 + bump400;
  }

  /** A multiple of 400 is a multiple of 100, and a multiple of 100 is a multiple of 4. */
  lemma DivisibilityChain(y: int)
    requires 1 <= y
    ensures y % 400 == 0 ==> y % 100 == 0
    ensures y % 100 == 0 ==> y % 4 == 0
  {
    if y % 400 == 0 {
      DivisionUnique(y, 100, 4 * (y / 400), 0);
    }
    if y % 100 == 0 {
      DivisionUnique(y, 4, 25 * (y / 100), 0);
    }
  }

  /** Going from p to p + 1 bumps p / k exactly when k divides p + 1. */
  lemma QuotientStep(p: int, k: int)
    requires 0 <= p && 0 < k
    ensures (p + 1) / k == p / k + (if (p + 1) % k == 0 then 1 else 0)
  {
    var q, r := p / k, p % k;
    if r + 1 < k {
      DivisionUnique(p + 1, k, q, r + 1);
    } else {
      DivisionUnique(p + 1, k, q + 1, 0);
    }
  }

  /** Euclidean division has one quotient and remainder. */
  lemma DivisionUnique(n: int, k: int, q: int, r: int)
    requires 0 < k && 0 <= r < k && n == k * q + r
    ensures n / k == q && n % k == r
  {
    var q0, r0 := n / k, n % k;
    assert k * q0 + r0 == n;
    if q > q0 {
      MultipleAtLeast(k, q - q0);
    } else if q < q0 {
      MultipleAtLeast(k, q0 - q);
    }
  }

  lemma {:induction false} MultipleAtLeast(k: int, d: int)
    requires 0 < k && 1 <= d
    ensures k * d >= k
  {
    if d > 1 {
      MultipleAtLeast(k, d - 1);
      assert k * d == k * (d - 1) + k;
    }
  }

  lemma {:induction false} DaysBeforeYearMonotone(a: int, b: int)
    requires 1 <= a <= b
    ensures DaysBeforeYear(a) <= DaysBeforeYear(b)
    decreases b - a
  {
    if a < b {
      DaysBeforeNextYear(a);
      DaysBeforeYearMonotone(a + 1, b);
    }
  }

  lemma DaysBeforeNextMonth(y: int, m: int)
    requires 1 <= m < 12
    ensures DaysBeforeMonth(y, m + 1) == DaysBeforeMonth(y, m) + DaysInMonth(y, m)
  {
  }

  lemma DecemberEndsYear(y: int)
    ensures DaysBeforeMonth(y, 12) + DaysInMonth(y, 12) == DaysInYear(y)
  {
  }

  lemma {:induction false} DaysBeforeMonthMonotone(y: int, a: int, b: int)
    requires 1 <= a < b <= 12
    ensures DaysBeforeMonth(y, a) + DaysInMonth(y, a) <= DaysBeforeMonth(y, b)
    decreases b - a
  {
    DaysBeforeNextMonth(y, a);
    if a + 1 < b {
      DaysBeforeMonthMonotone(y, a + 1, b);
    }
  }

  /** The ordinal of a date lies within the span of its own year. */
  lemma OrdinalWithinYear(d: Date)
    requires ValidDate(d)
    ensures DaysBeforeYear(d.year) < Ordinal(d) <= DaysBeforeYear(d.year + 1)
  {
    DaysBeforeNextYear(d.year);
    DecemberEndsYear(d.year);
    if d.month < 12 {
      DaysBeforeMonthMonotone(d.year, d.month, 12);
    }
  }

  /** A later ordinal never belongs to an earlier year. */
  lemma OrdinalOrdersYears(a: Date, b: Date)
    requires ValidDate(a) && ValidDate(b)
    requires Ordinal(a) <= Ordinal(b)
    ensures a.year <= b.year
  {
    if a.year > b.year {
      OrdinalWithinYear(a);
      OrdinalWithinYear(b);
      DaysBeforeYearMonotone(b.year + 1, a.year);
    }
  }

  /** Distinct valid dates have distinct ordinals. */
  lemma OrdinalInjective(a: Date, b: Date)
    requires ValidDate(a) && ValidDate(b)
    requires Ordinal(a) == Ordinal(b)
    ensures a == b
  {
    OrdinalOrdersYears(a, b);
    OrdinalOrdersYears(b, a);
    if a.month < b.month {
      DaysBeforeMonthMonotone(a.year, a.month, b.month);
    } else if b.month < a.month {
      DaysBeforeMonthMonotone(a.year, b.month, a.month);
    }
  }

  /** The next calendar day, rolling over month ends, year ends and February 28/29. */
  function Successor(d: Date): (s: Date)
    requires ValidDate(d)
    ensures ValidDate(s) && Ordinal(s) == Ordinal(d) + 1
  {
    if d.day < DaysInMonth(d.year, d.month) then
      Date(d.year, d.month, d.day + 1)
    else if d.month < 12 then
      DaysBeforeNextMonth(d.year, d.month);
      Date(d.year, d.month + 1, 1)
    else
      DaysBeforeNextYear(d.year);
      DecemberEndsYear(d.year);
      Date(d.year + 1, 1, 1)
  }

  /** `d + timedelta(days=n)` for n >= 0, as n calendar successors. */
  function AddDays(d: Date, n: nat): (r: Date)
    requires ValidDate(d)
    ensures ValidDate(r) && Ordinal(r) == Ordinal(d) + n
    decreases n
  {
    if n == 0 then d else AddDays(Successor(d), n - 1)
  }

  /** The date n days after d is the one valid date whose ordinal is n larger. */
  lemma AddDaysUnique(d: Date, n: nat, e: Date)
    requires ValidDate(d) && ValidDate(e)
    ensures Ordinal(e) == Ordinal(d) + n <==> e == AddDays(d, n)
  {
    if Ordinal(e) == Ordinal(d) + n {
      OrdinalInjective(e, AddDays(d, n));
    }
  }

  lemma AddDaysCompose(d: Date, m: nat, n: nat)
    requires ValidDate(d)
    ensures AddDays(AddDays(d, m), n) == AddDays(d, m + n)
  {
    OrdinalInjective(AddDays(AddDays(d, m), n), AddDays(d, m + n));
  }

  /** Adding whole days to an instant moves its date and keeps its clock time. */
  function AddDaysToInstant(i: Instant, n: nat): (r: Instant)
    requires ValidInstant(i)
    ensures ValidInstant(r)
    ensures r.hour == i.hour && r.minute == i.minute
    ensures Ordinal(r.date) == Ordinal(i.date) + n
  {
    Instant(AddDays(i.date, n), i.hour, i.minute)
  }

  /** Python's `weekday()`: 0 is Monday. */
  function Weekday(d: Date): (w: int)
    requires ValidDate(d)
    ensures 0 <= w < 7
  {
    (Ordinal(d) + 6) % 7
  }

  lemma WeekdayOfSuccessor(d: Date)
    requires ValidDate(d)
    ensures Weekday(Successor(d)) == (Weekday(d) + 1) % 7
  {
    NextResidue(Ordinal(d) + 6);
  }

  lemma NextResidue(x: int)
    ensures (x + 1) % 7 == (x % 7 + 1) % 7
  {
    var q, r := x / 7, x % 7;
    if r < 6 {
      assert x + 1 == 7 * q + (r + 1);
    } else {
      assert x + 1 == 7 * (q + 1);
    }
  }

  /** `strftime("%A")` in the C locale. */
  const WeekdayNames: seq<string> :=
    ["Monday", "Tuesday", "Wednesday", "Thursday", "Friday", "Saturday", "Sunday"]

  function WeekdayName(d: Date): (name: string)
    requires ValidDate(d)
    ensures name in WeekdayNames
  {
    WeekdayNames[Weekday(d)]
  }

  // ---------------------------------------------------------------------
  // Zero-padded decimal rendering and its inverse
  // ---------------------------------------------------------------------

  function Pow10(w: nat): (p: nat)
    ensures p >= 1
  {
    if w == 0 then 1 else 10 * Pow10(w - 1)
  }

  predicate IsDigit(c: char) {
    '0' <= c <= '9'
  }

  predicate AllDigits(s: string) {
    forall k :: 0 <= k < |s| ==> IsDigit(s[k])
  }

  function DigitChar(k: int): (c: char)
    requires 0 <= k < 10
    ensures IsDigit(c)
  {
    ('0' as int + k) as char
  }

  function DigitValue(c: char): (k: nat)
    requires IsDigit(c)
    ensures k < 10
  {
    c as int - '0' as int
  }

  /** n written in exactly w decimal digits, with leading zeros. */
  function Digits(n: nat, w: nat): (s: string)
    requires n < Pow10(w)
    ensures |s| == w && AllDigits(s)
  {
    if w == 0 then "" else Digits(n / 10, w - 1) + [DigitChar(n % 10)]
  }

  function ParseDigits(s: string): nat
    requires AllDigits(s)
  {
    if s == [] then 0 else 10 * ParseDigits(s[..|s| - 1]) + DigitValue(s[|s| - 1])
  }

  lemma {:induction false} ParseDigitsOfDigits(n: nat, w: nat)
    requires n < Pow10(w)
    ensures ParseDigits(Digits(n, w)) == n
  {
    if w > 0 {
      var s := Digits(n, w);
      assert s[..|s| - 1] == Digits(n / 10, w - 1);
      ParseDigitsOfDigits(n / 10, w - 1);
    }
  }

  /** A date Python renders with four year digits. */
  predicate FourDigitYear(d: Date) {
    1000 <= d.year <= 9999
  }

  /** `strftime("%Y-%m-%d")`. */
  function FormatDate(d: Date): (s: string)
    requires ValidDate(d) && FourDigitYear(d)
    ensures |s| == 10 && s[4] == '-' && s[7] == '-'
  {
    Digits(d.year, 4) + "-" + Digits(d.month, 2) + "-" + Digits(d.day, 2)
  }

  /** `strftime("%H:%M")`. */
  function FormatTime(hour: int, minute: int): (s: string)
    requires 0 <= hour < 24 && 0 <= minute < 60
    ensures |s| == 5 && s[2] == ':'
  {
    Digits(hour, 2) + ":" + Digits(minute, 2)
  }

  /** Reads back a `YYYY-MM-DD` string; the inverse of FormatDate. */
  function ParseDate(s: string): Option<Date> {
    if |s| == 10 && s[4] == '-' && s[7] == '-'
       && AllDigits(s[..4]) && AllDigits(s[5..7]) && AllDigits(s[8..])
    then Some(Date(ParseDigits(s[..4]), ParseDigits(s[5..7]), ParseDigits(s[8..])))
    else None
  }

  /** Reads back an `HH:MM` string as (hour, minute); the inverse of FormatTime. */
  function ParseTime(s: string): Option<(int, int)> {
    if |s| == 5 && s[2] == ':' && AllDigits(s[..2]) && AllDigits(s[3..])
    then Some((ParseDigits(s[..2]), ParseDigits(s[3..])))
    else None
  }

  lemma ParseFormatDate(d: Date)
    requires ValidDate(d) && FourDigitYear(d)
    ensures ParseDate(FormatDate(d)) == Some(d)
  {
    var s := FormatDate(d);
    assert s[..4] == Digits(d.year, 4);
    assert s[5..7] == Digits(d.month, 2);
    assert s[8..] == Digits(d.day, 2);
    ParseDigitsOfDigits(d.year, 4);
    ParseDigitsOfDigits(d.month, 2);
    ParseDigitsOfDigits(d.day, 2);
  }

  lemma ParseFormatTime(hour: int, minute: int)
    requires 0 <= hour < 24 && 0 <= minute < 60
    ensures ParseTime(FormatTime(hour, minute)) == Some((hour, minute))
  {
    var s := FormatTime(hour, minute);
    assert s[..2] == Digits(hour, 2);
    assert s[3..] == Digits(minute, 2);
    ParseDigitsOfDigits(hour, 2);
    ParseDigitsOfDigits(minute, 2);
  }

  /** Distinct dates never render to the same text. */
  lemma FormatDateInjective(a: Date, b: Date)
    requires ValidDate(a) && FourDigitYear(a) && ValidDate(b) && FourDigitYear(b)
    ensures FormatDate(a) == FormatDate(b) <==> a == b
  {
    ParseFormatDate(a);
    ParseFormatDate(b);
  }

  /** Python's `date` can hold a valid date exactly when its year is at most 9999. */
  lemma RepresentableUpToYear9999(e: Date)
    requires ValidDate(e)
    ensures Ordinal(e) <= MaxOrdinal <==> e.year <= 9999
  {
    OrdinalWithinYear(e);
    MaxOrdinalIsLastDay();
    if e.year <= 9999 {
      DaysBeforeYearMonotone(e.year + 1, 10000);
    } else {
      DaysBeforeYearMonotone(10000, e.year);
    }
  }

  /** A date that is at most MaxOrdinal days in keeps a year Python can write. */
  lemma YearStaysFourDigit(d: Date, e: Date)
    requires ValidDate(d) && FourDigitYear(d) && ValidDate(e)
    requires Ordinal(d) <= Ordinal(e) <= MaxOrdinal
    ensures FourDigitYear(e)
  {
    OrdinalOrdersYears(d, e);
    if e.year > 9999 {
      OrdinalWithinYear(e);
      DaysBeforeYearMonotone(10000, e.year);
    }
  }

  lemma LeapYearRollovers()
    ensures Successor(Date(2024, 2, 28)) == Date(2024, 2, 29)
    ensures Successor(Date(2024, 2, 29)) == Date(2024, 3, 1)
    ensures Successor(Date(2023, 2, 28)) == Date(2023, 3, 1)
    ensures Successor(Date(1900, 2, 28)) == Date(1900, 3, 1)
    ensures Successor(Date(2000, 2, 28)) == Date(2000, 2, 29)
    ensures Successor(Date(2024, 12, 31)) == Date(2025, 1, 1)
    ensures Successor(Date(2024, 4, 30)) == Date(2024, 5, 1)
  {
  }
}
