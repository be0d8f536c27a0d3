/**
 * The month navigation of the home page (`app/page.tsx`): the list of months
 * the selector offers and the order it shows them in, picking one of them,
 * and the previous/next arrows.
 */
module HomePage {
  import opened Wrappers
  import opened Text
  import opened Calendar
  import opened Listing

  /** One entry of the month selector; the label is locale formatting and is not modelled. */
  datatype MonthOption = MonthOption(month: int, year: int)

  /** The option's `value`, `YYYY-MM`. */
  function Value(o: MonthOption): (v: string)
    requires 0 <= o.year && 0 <= o.month
    ensures |v| == 7 && v[4] == '-'
  {
    Fixed(o.year, 4) + "-" + Fixed(o.month, 2)
  }

  // ------------------------------------------------------------- the range

  /** The `k`-th month counted from January two years before the current one. */
  function OptionAt(currentYear: int, k: nat): (o: MonthOption)
    ensures 1 <= o.month <= 12
  {
    MonthOption(k % 12 + 1, currentYear - 2 + k / 12)
  }

  /** January of two years ago to December of next year, one option per month, in order. */
  function Generated(currentYear: int): (r: seq<MonthOption>)
    ensures |r| == 48
  {
    seq(48, k requires 0 <= k < 48 => OptionAt(currentYear, k))
  }

  /** The range holds exactly the months of the four years, each once, in calendar order. */
  lemma GeneratedRange(currentYear: int)
    ensures forall o :: o in Generated(currentYear) <==> currentYear - 2 <= o.year <= currentYear + 1 && 1 <= o.month <= 12
    ensures forall i, j :: 0 <= i < j < 48 ==>
      MonthIndex(Date(Generated(currentYear)[i].year, Generated(currentYear)[i].month, 1))
      < MonthIndex(Date(Generated(currentYear)[j].year, Generated(currentYear)[j].month, 1))
  {
    var g := Generated(currentYear);
    forall o: MonthOption | currentYear - 2 <= o.year <= currentYear + 1 && 1 <= o.month <= 12 ensures o in g {
      var k := (o.year - currentYear + 2) * 12 + o.month - 1;
      assert g[k] == o;
    }
  }

  // ----------------------------------------------------------- the order

  /** The comparator handed to `months.sort`: negative sorts `a` first, positive `b`. */
  function Compare(currentYear: int, currentMonth: int, a: MonthOption, b: MonthOption): int {
    if a.year == currentYear && b.year == currentYear then
      if a.month == currentMonth then -1
      else if b.month == currentMonth then 1
      else if a.month >= currentMonth && b.month < currentMonth then -1
      else if a.month < currentMonth && b.month >= currentMonth then 1
      else a.month - b.month
    else if a.year == currentYear then -1
    else if b.year == currentYear then 1
    else b.year - a.year
  }

  function OptionOrder(currentYear: int, currentMonth: int): (MonthOption, MonthOption) -> bool {
    (a: MonthOption, b: MonthOption) => Compare(currentYear, currentMonth, a, b) <= 0
  }

  /**
   * The position the comparator gives an option: the current month first
   * (group 0), the rest of the current year from the current month on
   * (group 1) and before it (group 2), by month; then other years (group 3),
   * latest year first.
   */
  function Rank(currentYear: int, currentMonth: int, o: MonthOption): (int, int) {
    if o.year == currentYear then
      if o.month == currentMonth then (0, o.month)
      else if o.month >= currentMonth then (1, o.month)
      else (2, o.month)
    else (3, -o.year)
  }

  predicate RankLe(a: (int, int), b: (int, int)) {
    a.0 < b.0 || (a.0 == b.0 && a.1 <= b.1)
  }

  /** The comparator orders options exactly by their rank. */
  lemma CompareIsRank(currentYear: int, currentMonth: int, a: MonthOption, b: MonthOption)
    ensures Compare(currentYear, currentMonth, a, b) <= 0 <==> RankLe(Rank(currentYear, currentMonth, a), Rank(currentYear, currentMonth, b))
  {
  }

  /** The comparator is consistent, so sorting with it is well defined up to ties. */
  lemma OptionOrderTotalPreorder(currentYear: int, currentMonth: int)
    ensures TotalPreorder(OptionOrder(currentYear, currentMonth))
  {
    var le := OptionOrder(currentYear, currentMonth);
    forall a, b ensures le(a, b) == RankLe(Rank(currentYear, currentMonth, a), Rank(currentYear, currentMonth, b)) {
      CompareIsRank(currentYear, currentMonth, a, b);
    }
  }

  /**
   * What the comparator says: the current year before any other year; in
   * the current year the current month first, then the later months, then
   * the earlier ones, each by month; other years latest first, and the
   * months of one other year tie.
   */
  lemma CompareMeaning(currentYear: int, currentMonth: int, a: MonthOption, b: MonthOption)
    ensures a.year == currentYear && b.year != currentYear ==> Compare(currentYear, currentMonth, a, b) < 0
    ensures a.year == currentYear && a.month == currentMonth ==> Compare(currentYear, currentMonth, a, b) < 0
    ensures a.year == b.year == currentYear && a.month != currentMonth && b.month != currentMonth ==>
      (Compare(currentYear, currentMonth, a, b) < 0 <==>
        (a.month >= currentMonth && b.month < currentMonth)
        || ((a.month >= currentMonth) == (b.month >= currentMonth) && a.month < b.month))
    ensures a.year != currentYear && b.year != currentYear ==>
      (Compare(currentYear, currentMonth, a, b) < 0 <==> a.year > b.year)
      && (a.year == b.year ==> Compare(currentYear, currentMonth, a, b) == 0)
  {
  }

  /** The options as the selector shows them. */
  function SortedOptions(currentYear: int, currentMonth: int): (r: seq<MonthOption>)
    ensures multiset(r) == multiset(Generated(currentYear))
    ensures SortedBy(r, OptionOrder(currentYear, currentMonth))
  {
    OptionOrderTotalPreorder(currentYear, currentMonth);
    SortBySorted(Generated(currentYear), OptionOrder(currentYear, currentMonth));
    SortBy(Generated(currentYear), OptionOrder(currentYear, currentMonth))
  }

  /** After sorting, the first option is the current month of the current year. */
  lemma CurrentMonthFirst(currentYear: int, currentMonth: int)
    requires 1 <= currentMonth <= 12
    ensures SortedOptions(currentYear, currentMonth)[0] == MonthOption(currentMonth, currentYear)
  {
    var r := SortedOptions(currentYear, currentMonth);
    var current := MonthOption(currentMonth, currentYear);
    GeneratedRange(currentYear);
    assert current in multiset(Generated(currentYear));
    assert current in multiset(r);
    SortedFirstBefore(r, OptionOrder(currentYear, currentMonth), current);
    CompareIsRank(currentYear, currentMonth, r[0], current);
  }

  /** The first option of a sorted list is the given one or comes before it. */
  lemma SortedFirstBefore(r: seq<MonthOption>, le: (MonthOption, MonthOption) -> bool, x: MonthOption)
    requires SortedBy(r, le)
    requires x in r
    ensures r[0] == x || le(r[0], x)
  {
    var j :| 0 <= j < |r| && r[j] == x;
    if j > 0 {
      assert le(r[0], r[j]);
    }
  }

  /** `generateMonthOptions`: the loop over the months, then the sort. */
  method GenerateMonthOptions(currentYear: int, currentMonth: int) returns (options: seq<MonthOption>)
    ensures options == SortedOptions(currentYear, currentMonth)
    ensures |options| == 48
    ensures 1 <= currentMonth <= 12 ==> options[0] == MonthOption(currentMonth, currentYear)
  {
    var months: seq<MonthOption> := [];
    var date := Date(currentYear - 2, 1, 1);
    var end := Date(currentYear + 1, 12, 31);
    var start := MonthIndex(date);
    while DateLe(date, end)
      invariant date.day == 1 && 1 <= date.month <= 12
      invariant MonthIndex(date) == start + |months|
      invariant |months| <= 48
      invariant months == Generated(currentYear)[..|months|]
      decreases MonthIndex(end) - MonthIndex(date)
    {
      MonthIndexOrder(date, end);
      assert OptionAt(currentYear, |months|) == MonthOption(date.month, date.year);
      months := months + [MonthOption(date.month, date.year)];
      date := AddMonths(date, 1);
    }
    MonthIndexOrder(end, date);
    assert months == Generated(currentYear);
    options := SortBy(months, OptionOrder(currentYear, currentMonth));
    if 1 <= currentMonth <= 12 {
      CurrentMonthFirst(currentYear, currentMonth);
    }
  }

  // --------------------------------------------------- picking a month

  /** `selectMonth("YYYY-MM")`: day 1 of that month; anything else is outside the model. */
  function SelectMonth(value: string): Option<Date> {
    var parts := Split(value, '-');
    var year := Number(parts[0]);
    var month := if |parts| > 1 then Number(parts[1]) else None;
    if year.Some? && month.Some? && 1 <= month.value <= 12 then Some(Date(year.value, month.value, 1)) else None
  }

  /** Choosing an option selects day 1 of its month. */
  lemma SelectOption(o: MonthOption)
    requires 0 <= o.year <= 9999 && 1 <= o.month <= 12
    ensures SelectMonth(Value(o)) == Some(Date(o.year, o.month, 1))
  {
    var y, m := Fixed(o.year, 4), Fixed(o.month, 2);
    assert Value(o) == y + ['-'] + m;
    SplitAppend(y, m, '-');
    SplitWithoutSep(y, '-');
    SplitWithoutSep(m, '-');
    assert Pow10(2) == 100 && Pow10(4) == 10000;
    FixedRoundTrip(o.year, 4);
    FixedRoundTrip(o.month, 2);
  }

  // ------------------------------------------------------ arrows

  /**
   * `changeMonth('prev' | 'next')` as written: `setMonth(getMonth() ∓ 1)` on
   * the shown date, which starts as today with today's day.
   */
  function ChangeMonthAsWritten(d: Date, previous: bool): (r: Date)
    requires RealDate(d)
    ensures RealDate(r)
  {
    SetMonth(d, if previous then -1 else 1)
  }

  /**
   * The arrows as written move exactly one month only when the neighbouring
   * month has the shown day; from a day it lacks they go one month further
   * (forward: a month is skipped; back: the month does not change).
   */
  lemma ChangeMonthAsWrittenMoves(d: Date, previous: bool)
    requires RealDate(d)
    ensures var t := AddMonths(d, if previous then -1 else 1);
      MonthIndex(ChangeMonthAsWritten(d, previous)) == MonthIndex(d) + (if previous then -1 else 1)
      <==> d.day <= DaysInMonth(t.year, t.month)
  {
  }

  /** From 31 May "next" shows July; from 31 March "previous" stays in March. */
  lemma ChangeMonthAsWrittenMissesAMonth()
    ensures ChangeMonthAsWritten(Date(2025, 5, 31), false) == Date(2025, 7, 1)
    ensures ChangeMonthAsWritten(Date(2025, 3, 31), true) == Date(2025, 3, 3)
  {
    assert AddMonths(Date(2025, 5, 31), 1) == Date(2025, 6, 31);
    assert AddMonths(Date(2025, 3, 31), -1) == Date(2025, 2, 31);
    assert AddMonths(Date(2025, 2, 3), 1) == Date(2025, 3, 3);
  }

  /**
   * The arrows as intended: one month back or forward, keeping the day when
   * that month has it and taking its last day otherwise.
   */
  function ChangeMonth(d: Date, previous: bool): (r: Date)
    ensures MonthIndex(r) == MonthIndex(d) + (if previous then -1 else 1)
    ensures 1 <= r.month <= 12
    ensures r.day == if d.day <= DaysInMonth(r.year, r.month) then d.day else DaysInMonth(r.year, r.month)
    ensures RealDate(d) ==> RealDate(r)
  {
    var t := AddMonths(d, if previous then -1 else 1);
    var n := DaysInMonth(t.year, t.month);
    Date(t.year, t.month, if d.day <= n then d.day else n)
  }

  /**
   * Back then forward, or forward then back, returns to the month shown, and
   * to the very date when its day is one every month has.
   */
  lemma ChangeMonthBackAndForth(d: Date)
    requires RealDate(d)
    ensures MonthIndex(ChangeMonth(ChangeMonth(d, true), false)) == MonthIndex(d)
    ensures MonthIndex(ChangeMonth(ChangeMonth(d, false), true)) == MonthIndex(d)
    ensures d.day <= 28 ==> ChangeMonth(ChangeMonth(d, true), false) == d && ChangeMonth(ChangeMonth(d, false), true) == d
  {
    MonthIndexOrder(ChangeMonth(ChangeMonth(d, true), false), d);
    MonthIndexOrder(ChangeMonth(ChangeMonth(d, false), true), d);
  }
}
