/**
 * Calendar dates as the `date` column stores them ('YYYY-MM-DD'), the month
 * arithmetic the routes and pages do with `Date.setMonth`, and the SQLite
 * `strftime('%m' / '%Y', date)` tests that select one month of rows.
 */
module Calendar {
  import opened Wrappers
  import opened Text

  /** A calendar date; the text form 'YYYY-MM-DD' is left implicit. */
  datatype Date = Date(year: int, month: int, day: int)

  /** A date whose 'YYYY-MM-DD' text SQLite's date functions accept. */
  predicate ValidDate(d: Date) {
    0 <= d.year <= 9999 && 1 <= d.month <= 12 && 1 <= d.day <= 31
  }

  /** `a <= b` on the ISO text of two dates: by year, then month, then day. */
  predicate DateLe(a: Date, b: Date) {
    a.year < b.year || (a.year == b.year && (a.month < b.month || (a.month == b.month && a.day <= b.day)))
  }

  predicate DateLt(a: Date, b: Date) {
    !DateLe(b, a)
  }

  /** The date order is a total order. */
  lemma DateLeIsTotalOrder()
    ensures forall a, b :: DateLe(a, b) || DateLe(b, a)
    ensures forall a, b, c :: DateLe(a, b) && DateLe(b, c) ==> DateLe(a, c)
    ensures forall a, b :: DateLe(a, b) && DateLe(b, a) ==> a == b
  {
  }

  /** Months elapsed since January of year 0. */
  function MonthIndex(d: Date): int {
    d.year * 12 + d.month - 1
  }

  /**
   * `date.setMonth(date.getMonth() + k)`, with the day kept as it is: the
   * result is exactly `k` months after `d` and has a month in 1..12.
   */
  function AddMonths(d: Date, k: int): (r: Date)
    ensures 1 <= r.month <= 12 && r.day == d.day
    ensures MonthIndex(r) == MonthIndex(d) + k
  {
    var t := MonthIndex(d) + k;
    Date(t / 12, t % 12 + 1, d.day)
  }

  /** Adding no months to a date with a month in 1..12 gives it back. */
  lemma AddMonthsZero(d: Date)
    requires 1 <= d.month <= 12
    ensures AddMonths(d, 0) == d
  {
  }

  /** Adding `a` months then `b` months is adding `a + b` months. */
  lemma AddMonthsAdd(d: Date, a: int, b: int)
    ensures AddMonths(AddMonths(d, a), b) == AddMonths(d, a + b)
  {
  }

  /** For months in 1..12, the month index orders dates as their year and month do. */
  lemma MonthIndexOrder(a: Date, b: Date)
    requires 1 <= a.month <= 12 && 1 <= b.month <= 12
    ensures MonthIndex(a) < MonthIndex(b) <==> (a.year < b.year || (a.year == b.year && a.month < b.month))
    ensures MonthIndex(a) == MonthIndex(b) <==> (a.year == b.year && a.month == b.month)
  {
  }

  /** A later month offset gives a strictly later date. */
  lemma AddMonthsIncreasing(d: Date, a: int, b: int)
    requires a < b
    ensures DateLt(AddMonths(d, a), AddMonths(d, b))
  {
    MonthIndexOrder(AddMonths(d, a), AddMonths(d, b));
  }

  /** A year valid for SQLite stays valid after adding months as long as the result is in range. */
  lemma AddMonthsValid(d: Date, k: int)
    requires ValidDate(d)
    requires 0 <= MonthIndex(d) + k < 120000
    ensures ValidDate(AddMonths(d, k))
  {
  }

  // ------------------------------------------------- calendar-exact months

  function IsLeapYear(y: int): bool {
    y % 4 == 0 && (y % 100 != 0 || y % 400 == 0)
  }

  /** The length of a month of the proleptic Gregorian calendar JavaScript's `Date` uses. */
  function DaysInMonth(year: int, month: int): (n: int)
    ensures 28 <= n <= 31
    ensures month == 2 ==> (n == 29 <==> IsLeapYear(year))
    ensures month in {1, 3, 5, 7, 8, 10, 12} ==> n == 31
    ensures month in {4, 6, 9, 11} ==> n == 30
  {
    if month == 2 then (if IsLeapYear(year) then 29 else 28)
    else if month == 4 || month == 6 || month == 9 || month == 11 then 30
    else 31
  }

  /** A date that exists on the calendar, as every JavaScript `Date` denotes one. */
  predicate RealDate(d: Date) {
    1 <= d.month <= 12 && 1 <= d.day <= DaysInMonth(d.year, d.month)
  }

  /**
   * JavaScript's `date.setMonth(date.getMonth() + k)` on a real date: the day
   * is kept when the target month has it; otherwise the days past the
   * target month's end spill into the month after it.
   */
  function SetMonth(d: Date, k: int): (r: Date)
    requires RealDate(d)
    ensures RealDate(r)
    ensures var n := DaysInMonth(AddMonths(d, k).year, AddMonths(d, k).month);
      && (d.day <= n ==> MonthIndex(r) == MonthIndex(d) + k && r.day == d.day)
      && (d.day > n ==> MonthIndex(r) == MonthIndex(d) + k + 1 && r.day == d.day - n)
  {
    var t := AddMonths(d, k);
    var n := DaysInMonth(t.year, t.month);
    if d.day <= n then t else AddMonths(Date(t.year, t.month, d.day - n), 1)
  }

  // ------------------------------------------------------- month selection

  /**
   * `strftime('%m', date) = month.padStart(2, '0') AND strftime('%Y', date) = year`:
   * the test by which the routes keep the rows of one month; a date SQLite
   * cannot read matches nothing.
   */
  predicate InMonth(d: Date, month: string, year: string) {
    ValidDate(d) && Fixed(d.month, 2) == PadStart(month, 2, '0') && Fixed(d.year, 4) == year
  }

  /** The month parameter "3" and "03" select the same rows. */
  lemma InMonthLeadingZero(d: Date, digit: char, year: string)
    ensures InMonth(d, [digit], year) <==> InMonth(d, ['0', digit], year)
  {
    PadStartLeadingZero(digit);
  }

  /** A month number padded to two digits is its `%m` text. */
  lemma MonthNumberText(month: nat)
    requires 1 <= month <= 12
    ensures PadStart(NatToText(month), 2, '0') == Fixed(month, 2)
  {
    assert Pow10(2) == 100 by {
      assert Pow10(1) == 10;
    }
    NatToTextShort(month, 2);
    PaddedTextIsFixed(month, 2);
  }

  /** A four-digit year number is its `%Y` text. */
  lemma YearNumberText(year: nat)
    requires 1000 <= year <= 9999
    ensures NatToText(year) == Fixed(year, 4)
  {
    assert Pow10(4) == 10000 by {
      assert Pow10(1) == 10;
      assert Pow10(2) == 100;
      assert Pow10(3) == 1000;
    }
    NatToTextShort(year, 4);
    NatToTextLength(year, 4);
    PaddedTextIsFixed(year, 4);
  }

  /**
   * With month and year sent as plain numbers (`month=3&year=2024`), the test
   * selects exactly the dates of that month of that year.
   */
  lemma {:induction false} InMonthOfNumbers(d: Date, month: nat, year: nat)
    requires 1 <= month <= 12 && 1000 <= year <= 9999
    ensures InMonth(d, NatToText(month), NatToText(year)) <==> ValidDate(d) && d.month == month && d.year == year
  {
    MonthNumberText(month);
    YearNumberText(year);
    if InMonth(d, NatToText(month), NatToText(year)) {
      assert Pow10(4) == 10000 by {
        assert Pow10(1) == 10;
        assert Pow10(2) == 100;
        assert Pow10(3) == 1000;
      }
      FixedInjective(d.month, month, 2);
      FixedInjective(d.year, year, 4);
    }
  }

  // ---------------------------------------------------------------- instants

  /** A point in time: a UTC date and the milliseconds elapsed in that day. */
  datatype Instant = Instant(date: Date, millis: nat)

  /** `new Date('YYYY-MM-DD')`: midnight UTC of that date. */
  function StartOf(d: Date): Instant {
    Instant(d, 0)
  }

  /** `a < b` on two instants. */
  predicate InstantLt(a: Instant, b: Instant) {
    DateLt(a.date, b.date) || (a.date == b.date && a.millis < b.millis)
  }

  /** A date is before an instant exactly when it is earlier than the instant's day, or the same day after midnight. */
  lemma StartOfBefore(d: Date, now: Instant)
    ensures InstantLt(StartOf(d), now) <==> DateLt(d, now.date) || (d == now.date && now.millis > 0)
  {
  }

  // ------------------------------------------------------------ date text

  /** The 'YYYY-MM-DD' text of a date. */
  function DateText(d: Date): (t: string)
    requires ValidDate(d)
    ensures |t| == 10 && t[4] == '-' && t[7] == '-'
  {
    Fixed(d.year, 4) + "-" + Fixed(d.month, 2) + "-" + Fixed(d.day, 2)
  }

  /**
   * `new Date(t)` for a date-only text: three dash-separated groups of 4, 2
   * and 2 digits naming a valid date; any other text is an Invalid Date,
   * which no comparison holds for.
   */
  function DateOfText(t: string): (r: Option<Date>)
    ensures r.Some? ==> ValidDate(r.value)
  {
    var parts := Split(t, '-');
    if |parts| != 3 || |parts[0]| != 4 || |parts[1]| != 2 || |parts[2]| != 2 then None
    else
      match (Number(parts[0]), Number(parts[1]), Number(parts[2]))
      case (Some(y), Some(m), Some(d)) => if ValidDate(Date(y, m, d)) then Some(Date(y, m, d)) else None
      case _ => None
  }

  /** A date's text reads back as the date. */
  lemma DateTextRoundTrip(d: Date)
    requires ValidDate(d)
    ensures DateOfText(DateText(d)) == Some(d)
  {
    var y, m, dd := Fixed(d.year, 4), Fixed(d.month, 2), Fixed(d.day, 2);
    DateTextPieces(d);
    assert Pow10(2) == 100 && Pow10(4) == 10000;
    FixedRoundTrip(d.year, 4);
    FixedRoundTrip(d.month, 2);
    FixedRoundTrip(d.day, 2);
  }

  /** The text of a date splits at its dashes into the year, month and day texts. */
  lemma DateTextPieces(d: Date)
    requires ValidDate(d)
    ensures Split(DateText(d), '-') == [Fixed(d.year, 4), Fixed(d.month, 2), Fixed(d.day, 2)]
  {
    var y, m, dd := Fixed(d.year, 4), Fixed(d.month, 2), Fixed(d.day, 2);
    assert DateText(d) == y + ['-'] + (m + ['-'] + dd);
    SplitAppend(y, m + ['-'] + dd, '-');
    SplitAppend(m, dd, '-');
    SplitWithoutSep(y, '-');
    SplitWithoutSep(m, '-');
    SplitWithoutSep(dd, '-');
  }

  /** A text that reads as a date is that date's text: the reading loses nothing. */
  lemma TextOfDate(t: string)
    requires DateOfText(t).Some?
    ensures DateText(DateOfText(t).value) == t
  {
    var parts := Split(t, '-');
    var d := DateOfText(t).value;
    JoinSplit(t, '-');
    assert Join(parts, '-') == parts[0] + ['-'] + (parts[1] + ['-'] + parts[2]) by {
      assert parts[1..][1..] == [parts[2]];
      assert Join(parts[1..][1..], '-') == parts[2];
      assert Join(parts[1..], '-') == parts[1] + ['-'] + parts[2];
    }
    DigitsFixed(parts[0]);
    DigitsFixed(parts[1]);
    DigitsFixed(parts[2]);
  }
}
