/** The proleptic Gregorian calendar as chrono's `NaiveDate` uses it: a date
    is a day number counted from 1970-01-01, converted to and from year,
    month and day; `format("%Y-%m-%d")`, the strict `"%Y-%m-%d"` parse the
    model uses, and the weekday. */
module Calendar {
  import opened Wrappers
  import opened Text

  predicate IsLeap(y: int) {
    y % 4 == 0 && (y % 100 != 0 || y % 400 == 0)
  }

  function YearLength(y: int): int {
    if IsLeap(y) then 366 else 365
  }

  /** The day number of January 1st of year `y`, counted year by year
      from 1970. */
  function DaysBefore(y: int): int
    decreases if y < 1970 then 1970 - y else y - 1970
  {
    if y == 1970 then 0
    else if y > 1970 then DaysBefore(y - 1) + YearLength(y - 1)
    else DaysBefore(y + 1) - YearLength(y)
  }

  lemma DaysBeforeStep(y: int)
    ensures DaysBefore(y + 1) == DaysBefore(y) + YearLength(y)
  {
  }

  /** How the leap-year count `x/4 - x/100 + x/400` grows from one year to
      the next. */
  function Leaps(x: int): int {
    x / 4 - x / 100 + x / 400
  }

  lemma Step4(y: int)
    ensures y / 4 - (y - 1) / 4 == if y % 4 == 0 then 1 else 0
  {
  }

  lemma Step100(y: int)
    ensures y / 100 - (y - 1) / 100 == if y % 100 == 0 then 1 else 0
  {
  }

  lemma Step400(y: int)
    ensures y / 400 - (y - 1) / 400 == if y % 400 == 0 then 1 else 0
  {
  }

  lemma Divides(y: int)
    ensures y % 100 == 0 ==> y % 4 == 0
    ensures y % 400 == 0 ==> y % 100 == 0
  {
    if y % 100 == 0 {
      var q := y / 100;
      assert y == 4 * (25 * q);
      MultipleMod(25 * q);
    }
    if y % 400 == 0 {
      var q := y / 400;
      assert y == 100 * (4 * q);
      MultipleMod(4 * q);
    }
  }

  lemma MultipleMod(k: int)
    ensures (4 * k) % 4 == 0 && (100 * k) % 100 == 0
  {
  }

  lemma LeapsStep(y: int)
    ensures Leaps(y) - Leaps(y - 1) == if IsLeap(y) then 1 else 0
  {
    Step4(y);
    Step100(y);
    Step400(y);
    Divides(y);
  }

  /** The closed form of `DaysBefore`: 365 days a year plus one for every
      leap year in between. */
  lemma {:induction false} DaysBeforeClosed(y: int)
    ensures DaysBefore(y) == 365 * (y - 1970) + Leaps(y - 1) - Leaps(1969)
    decreases if y < 1970 then 1970 - y else y - 1970
  {
    if y > 1970 {
      DaysBeforeClosed(y - 1);
      LeapsStep(y - 1);
    } else if y < 1970 {
      DaysBeforeClosed(y + 1);
      LeapsStep(y);
    }
  }

  /** Later years start later: a year has ended before any later one starts. */
  lemma {:induction false} DaysBeforeMono(a: int, b: int)
    requires a < b
    ensures DaysBefore(a + 1) <= DaysBefore(b)
    decreases b - a
  {
    if a + 1 < b {
      DaysBeforeMono(a, b - 1);
      DaysBeforeStep(b - 1);
    }
  }

  function DaysInMonth(y: int, m: int): (n: int)
    requires 1 <= m <= 12
    ensures 28 <= n <= 31
  {
    if m == 2 then (if IsLeap(y) then 29 else 28)
    else if m == 4 || m == 6 || m == 9 || m == 11 then 30
    else 31
  }

  /** Days of year `y` before the first of month `m`; month 13 stands for
      the year's end. */
  function DaysBeforeMonth(y: int, m: int): (n: int)
    requires 1 <= m <= 13
    ensures 0 <= n
  {
    if m == 1 then 0 else DaysBeforeMonth(y, m - 1) + DaysInMonth(y, m - 1)
  }

  lemma MonthsFillYear(y: int)
    ensures DaysBeforeMonth(y, 13) == YearLength(y)
  {
    var f := if IsLeap(y) then 29 else 28;
    assert DaysBeforeMonth(y, 2) == 31;
    assert DaysBeforeMonth(y, 3) == 31 + f;
    assert DaysBeforeMonth(y, 4) == 62 + f;
    assert DaysBeforeMonth(y, 5) == 92 + f;
    assert DaysBeforeMonth(y, 6) == 123 + f;
    assert DaysBeforeMonth(y, 7) == 153 + f;
    assert DaysBeforeMonth(y, 8) == 184 + f;
    assert DaysBeforeMonth(y, 9) == 215 + f;
    assert DaysBeforeMonth(y, 10) == 245 + f;
    assert DaysBeforeMonth(y, 11) == 276 + f;
    assert DaysBeforeMonth(y, 12) == 306 + f;
    assert DaysBeforeMonth(y, 13) == 337 + f;
  }

  lemma {:induction false} DaysBeforeMonthMono(y: int, a: int, b: int)
    requires 1 <= a < b <= 13
    ensures DaysBeforeMonth(y, a + 1) <= DaysBeforeMonth(y, b)
    decreases b - a
  {
    if a + 1 < b {
      DaysBeforeMonthMono(y, a, b - 1);
    }
  }

  datatype Civil = Civil(year: int, month: int, day: int)

  predicate ValidCivil(c: Civil) {
    1 <= c.month <= 12 && 1 <= c.day <= DaysInMonth(c.year, c.month)
  }

  /** The day number of a calendar date. */
  function DaysFromCivil(c: Civil): int
    requires ValidCivil(c)
  {
    DaysBefore(c.year) + DaysBeforeMonth(c.year, c.month) + c.day - 1
  }

  function YearUp(n: int, y: int): (r: int)
    requires DaysBefore(y) <= n
    ensures DaysBefore(r) <= n < DaysBefore(r + 1)
    decreases n - DaysBefore(y)
  {
    DaysBeforeStep(y);
    if n < DaysBefore(y + 1) then y else YearUp(n, y + 1)
  }

  function YearDown(n: int, y: int): (r: int)
    requires n < DaysBefore(y + 1)
    ensures DaysBefore(r) <= n < DaysBefore(r + 1)
    decreases DaysBefore(y + 1) - n
  {
    DaysBeforeStep(y);
    if DaysBefore(y) <= n then y else YearDown(n, y - 1)
  }

  /** The year that day `n` falls in. */
  function YearOf(n: int): (r: int)
    ensures DaysBefore(r) <= n < DaysBefore(r + 1)
  {
    if n >= 0 then YearUp(n, 1970) else YearDown(n, 1969)
  }

  /** The month of year `y` that holds day `r` of that year. */
  function MonthOf(y: int, r: int, m: int): (k: int)
    requires 0 <= r < YearLength(y)
    requires 1 <= m <= 12 && DaysBeforeMonth(y, m) <= r
    ensures 1 <= k <= 12 && DaysBeforeMonth(y, k) <= r < DaysBeforeMonth(y, k + 1)
    decreases 12 - m
  {
    MonthsFillYear(y);
    if m == 12 || r < DaysBeforeMonth(y, m + 1) then m else MonthOf(y, r, m + 1)
  }

  /** chrono's `NaiveDate` fields of day number `n`. */
  function CivilFromDays(n: int): (c: Civil)
    ensures ValidCivil(c)
  {
    var y := YearOf(n);
    DaysBeforeStep(y);
    var r := n - DaysBefore(y);
    var m := MonthOf(y, r, 1);
    Civil(y, m, r - DaysBeforeMonth(y, m) + 1)
  }

  /** The date of day `n` is day `n`. */
  lemma CivilFromDaysInverse(n: int)
    ensures DaysFromCivil(CivilFromDays(n)) == n
  {
  }

  /** A day lies in exactly one year. */
  lemma YearUnique(n: int, a: int, b: int)
    requires DaysBefore(a) <= n < DaysBefore(a + 1)
    requires DaysBefore(b) <= n < DaysBefore(b + 1)
    ensures a == b
  {
    if a < b {
      DaysBeforeMono(a, b);
    } else if b < a {
      DaysBeforeMono(b, a);
    }
  }

  /** A day of a year lies in exactly one month. */
  lemma MonthUnique(y: int, r: int, a: int, b: int)
    requires 1 <= a <= 12 && 1 <= b <= 12
    requires DaysBeforeMonth(y, a) <= r < DaysBeforeMonth(y, a + 1)
    requires DaysBeforeMonth(y, b) <= r < DaysBeforeMonth(y, b + 1)
    ensures a == b
  {
    if a < b {
      DaysBeforeMonthMono(y, a, b);
    } else if b < a {
      DaysBeforeMonthMono(y, b, a);
    }
  }

  /** Every calendar date has exactly one day number: converting a date to
      its day number and back gives the date. */
  lemma CivilRoundTrip(c: Civil)
    requires ValidCivil(c)
    ensures CivilFromDays(DaysFromCivil(c)) == c
  {
    var n := DaysFromCivil(c);
    var d := CivilFromDays(n);
    CivilFromDaysInverse(n);
    DaysBeforeStep(c.year);
    MonthsFillYear(c.year);
    DaysBeforeMonthMono(c.year, c.month, 13);
    YearUnique(n, d.year, c.year);
    var r := n - DaysBefore(c.year);
    MonthUnique(c.year, r, d.month, c.month);
  }

  /** `weekday().num_days_from_monday()`: 1970-01-01 was a Thursday. */
  function DaysFromMonday(n: int): (w: int)
    ensures 0 <= w < 7
  {
    (n + 3) % 7
  }

  /** The Monday on or before day `n`. */
  function MondayOf(n: int): (m: int)
    ensures n - 6 <= m <= n
    ensures DaysFromMonday(m) == 0
  {
    n - DaysFromMonday(n)
  }

  /** Days a week apart fall on the same weekday. */
  lemma WeekdayPeriodic(n: int, k: int)
    ensures DaysFromMonday(n + 7 * k) == DaysFromMonday(n)
  {
  }

  /** `%Y`: four digits for years 0 to 9999, a sign and the digits beyond. */
  function YearText(y: int): string {
    if 0 <= y <= 9999 then ZeroPad(y, 4)
    else if y > 9999 then "+" + NatToString(y)
    else "-" + ZeroPad(-y, 4)
  }

  /** `format("%Y-%m-%d")`. */
  function Format(n: int): string {
    var c := CivilFromDays(n);
    YearText(c.year) + "-" + ZeroPad(c.month, 2) + "-" + ZeroPad(c.day, 2)
  }

  /** A date whose `%Y` is the four-digit form. */
  predicate FourDigitYear(n: int) {
    0 <= CivilFromDays(n).year <= 9999
  }

  /** `NaiveDate::parse_from_str(s, "%Y-%m-%d")` for the zero-padded form
      `YYYY-MM-DD`: the digits must name a real date. */
  function Parse(s: string): (r: Option<int>)
    ensures r.Some? ==> |s| == 10
  {
    if |s| == 10 && s[4] == '-' && s[7] == '-' && AllDigits(s[..4]) && AllDigits(s[5..7]) && AllDigits(s[8..]) then
      var c := Civil(DigitsValue(s[..4]), DigitsValue(s[5..7]), DigitsValue(s[8..]));
      if ValidCivil(c) then Some(DaysFromCivil(c)) else None
    else None
  }

  /** Where the fields of a `YYYY-MM-DD` string sit. */
  lemma Fields(ys: string, ms: string, ds: string)
    requires |ys| == 4 && |ms| == 2 && |ds| == 2
    ensures var s := ys + "-" + ms + "-" + ds;
      |s| == 10 && s[4] == '-' && s[7] == '-' && s[..4] == ys && s[5..7] == ms && s[8..] == ds
  {
  }

  /** A four-digit-year date is written as `YYYY-MM-DD`, each field zero-padded. */
  lemma FormatLayout(n: int)
    requires FourDigitYear(n)
    ensures var c := CivilFromDays(n);
      Format(n) == ZeroPad(c.year, 4) + "-" + ZeroPad(c.month, 2) + "-" + ZeroPad(c.day, 2)
      && |ZeroPad(c.year, 4)| == 4 && |ZeroPad(c.month, 2)| == 2 && |ZeroPad(c.day, 2)| == 2
  {
    var c := CivilFromDays(n);
    TwoDigits(c.month);
    TwoDigits(c.day);
    assert Pow10(4) == 10000;
    SmallNatDigits(c.year, 4);
  }

  /** What `Format` writes, `Parse` reads back. */
  lemma ParseFormat(n: int)
    requires FourDigitYear(n)
    ensures Parse(Format(n)) == Some(n)
  {
    var c := CivilFromDays(n);
    var ys, ms, ds := ZeroPad(c.year, 4), ZeroPad(c.month, 2), ZeroPad(c.day, 2);
    FormatLayout(n);
    CivilFromDaysInverse(n);
    Fields(ys, ms, ds);
    ZeroPadValue(c.year, 4);
    ZeroPadValue(c.month, 2);
    ZeroPadValue(c.day, 2);
  }

  /** A number below `10^k` has at most `k` digits. */
  lemma {:induction false} SmallNatDigits(n: nat, k: nat)
    requires 1 <= k && n < Pow10(k)
    ensures |NatToString(n)| <= k
    decreases k
  {
    if n >= 10 {
      if k == 1 {
        assert false;
      }
      assert NatToString(n) == NatToString(n / 10) + [DigitChar(n % 10)];
      SmallNatDigits(n / 10, k - 1);
    }
  }

  function Pow10(k: nat): nat {
    if k == 0 then 1 else 10 * Pow10(k - 1)
  }
}
