/**
 * The yearly summary page (`app/summary/page.tsx`): one entry per month of
 * the chosen year, the year's totals, the order the months are shown in,
 * their short names, and the years the selector offers.
 */
module SummaryPage {
  import opened Wrappers
  import opened Listing

  /** What the summary route answers for one month, as the page reads it. */
  datatype Totals = Totals(totalIncome: real, totalExpense: real, balance: real, transactionCount: nat)

  /** One entry of `monthlyData`. */
  datatype MonthlyData = MonthlyData(month: int, year: int, totalIncome: real, totalExpense: real, balance: real, transactionCount: nat)

  function Entry(month: int, year: int, t: Totals): MonthlyData {
    MonthlyData(month, year, t.totalIncome, t.totalExpense, t.balance, t.transactionCount)
  }

  /**
   * `fetchMonthlyData`: months 1 to 12 of the selected year, in order; `fetch`
   * stands for the request to the summary route for that month. The month
   * and year the route echoes are the ones sent, so the spread of its
   * summary keeps them.
   */
  method FetchMonthlyData(selectedYear: int, fetch: int -> Totals) returns (data: seq<MonthlyData>)
    ensures |data| == 12
    ensures forall i :: 0 <= i < 12 ==> data[i] == Entry(i + 1, selectedYear, fetch(i + 1))
    ensures YearOfMonths(data, selectedYear)
  {
    data := [];
    var month := 1;
    while month <= 12
      invariant 1 <= month <= 13
      invariant |data| == month - 1
      invariant forall i :: 0 <= i < |data| ==> data[i] == Entry(i + 1, selectedYear, fetch(i + 1))
    {
      data := data + [Entry(month, selectedYear, fetch(month))];
      month := month + 1;
    }
  }

  // ------------------------------------------------------ annual totals

  function Income(d: MonthlyData): real {
    d.totalIncome
  }

  function Expense(d: MonthlyData): real {
    d.totalExpense
  }

  function Balance(d: MonthlyData): real {
    d.balance
  }

  /** The three figures at the top: the income and expense sums and their difference. */
  function AnnualTotals(data: seq<MonthlyData>): (r: (real, real, real))
    ensures r.2 == r.0 - r.1
  {
    var income := SumBy(data, Income);
    var expense := SumBy(data, Expense);
    (income, expense, income - expense)
  }

  /** When each month's balance is its income less its expense, the annual balance is the sum of the monthly ones. */
  lemma AnnualBalanceIsSumOfBalances(data: seq<MonthlyData>)
    requires forall i :: 0 <= i < |data| ==> data[i].balance == data[i].totalIncome - data[i].totalExpense
    ensures AnnualTotals(data).2 == SumBy(data, Balance)
  {
    SumByDifferenceOn(data);
  }

  lemma {:induction false} SumByDifferenceOn(data: seq<MonthlyData>)
    requires forall i :: 0 <= i < |data| ==> data[i].balance == data[i].totalIncome - data[i].totalExpense
    ensures SumBy(data, Balance) == SumBy(data, Income) - SumBy(data, Expense)
  {
    if |data| > 0 {
      SumByDifferenceOn(data[1..]);
    }
  }

  /** A year with no transactions totals zero. */
  lemma EmptyYear(data: seq<MonthlyData>)
    requires forall i :: 0 <= i < |data| ==> data[i].totalIncome == 0.0 && data[i].totalExpense == 0.0
    ensures AnnualTotals(data) == (0.0, 0.0, 0.0)
  {
    SumByConstantZero(data);
  }

  lemma {:induction false} SumByConstantZero(data: seq<MonthlyData>)
    requires forall i :: 0 <= i < |data| ==> data[i].totalIncome == 0.0 && data[i].totalExpense == 0.0
    ensures SumBy(data, Income) == 0.0 && SumBy(data, Expense) == 0.0
  {
    if |data| > 0 {
      SumByConstantZero(data[1..]);
    }
  }

  // --------------------------------------------------------- the order

  /** The comparator of the monthly list. */
  function Compare(currentYear: int, currentMonth: int, a: MonthlyData, b: MonthlyData): int {
    if a.year == currentYear && b.year == currentYear then
      if a.month >= currentMonth && b.month < currentMonth then -1
      else if a.month < currentMonth && b.month >= currentMonth then 1
      else a.month - b.month
    else a.month - b.month
  }

  function DisplayOrder(currentYear: int, currentMonth: int): (MonthlyData, MonthlyData) -> bool {
    (a: MonthlyData, b: MonthlyData) => Compare(currentYear, currentMonth, a, b) <= 0
  }

  /** Within one year the comparator is a key order: in the current year, the months from the current one on, then the earlier ones. */
  function MonthKey(currentYear: int, currentMonth: int, year: int, month: int): (int, int) {
    if year == currentYear && month < currentMonth then (1, month) else (0, month)
  }

  predicate KeyLe(a: (int, int), b: (int, int)) {
    a.0 < b.0 || (a.0 == b.0 && a.1 <= b.1)
  }

  function KeyOrder(currentYear: int, currentMonth: int, year: int): (MonthlyData, MonthlyData) -> bool {
    (a: MonthlyData, b: MonthlyData) => KeyLe(MonthKey(currentYear, currentMonth, year, a.month), MonthKey(currentYear, currentMonth, year, b.month))
  }

  lemma KeyOrderTotalPreorder(currentYear: int, currentMonth: int, year: int)
    ensures TotalPreorder(KeyOrder(currentYear, currentMonth, year))
  {
  }

  /** The list as shown: the comparator's sort of the fetched entries. */
  function Displayed(currentYear: int, currentMonth: int, data: seq<MonthlyData>): seq<MonthlyData> {
    SortBy(data, DisplayOrder(currentYear, currentMonth))
  }

  /** For two entries of one year the comparator's verdict is the key order's. */
  lemma CompareIsKey(currentYear: int, currentMonth: int, year: int, a: MonthlyData, b: MonthlyData)
    requires a.year == year && b.year == year
    ensures DisplayOrder(currentYear, currentMonth)(a, b) == KeyOrder(currentYear, currentMonth, year)(a, b)
  {
  }

  /** On the entries of one year the comparator orders exactly by the key. */
  lemma DisplayedByKey(currentYear: int, currentMonth: int, year: int, data: seq<MonthlyData>)
    requires forall i :: 0 <= i < |data| ==> data[i].year == year
    ensures Displayed(currentYear, currentMonth, data) == SortBy(data, KeyOrder(currentYear, currentMonth, year))
    ensures SortedBy(Displayed(currentYear, currentMonth, data), KeyOrder(currentYear, currentMonth, year))
    ensures multiset(Displayed(currentYear, currentMonth, data)) == multiset(data)
  {
    forall i, j | 0 <= i < |data| && 0 <= j < |data|
      ensures DisplayOrder(currentYear, currentMonth)(data[i], data[j]) == KeyOrder(currentYear, currentMonth, year)(data[i], data[j])
    {
      CompareIsKey(currentYear, currentMonth, year, data[i], data[j]);
    }
    SortByAgree(data, DisplayOrder(currentYear, currentMonth), KeyOrder(currentYear, currentMonth, year));
    KeyOrderTotalPreorder(currentYear, currentMonth, year);
    SortBySorted(data, KeyOrder(currentYear, currentMonth, year));
  }

  /** The entries `FetchMonthlyData` builds: months 1 to 12 of one year, in order. */
  predicate YearOfMonths(data: seq<MonthlyData>, year: int) {
    |data| == 12 && forall i :: 0 <= i < 12 ==> data[i].year == year && data[i].month == i + 1
  }

  /** A past year is shown January to December, as fetched. */
  lemma OtherYearInCalendarOrder(currentYear: int, currentMonth: int, selectedYear: int, data: seq<MonthlyData>)
    requires selectedYear != currentYear && YearOfMonths(data, selectedYear)
    ensures Displayed(currentYear, currentMonth, data) == data
  {
    var key := KeyOrder(currentYear, currentMonth, selectedYear);
    DisplayedByKey(currentYear, currentMonth, selectedYear, data);
    forall i, j | 0 <= i < j < 12 ensures key(data[i], data[j]) {
      assert MonthKey(currentYear, currentMonth, selectedYear, data[i].month) == (0, i + 1);
      assert MonthKey(currentYear, currentMonth, selectedYear, data[j].month) == (0, j + 1);
    }
    SortByIdentity(data, key);
  }

  /** In the current year the current month is shown first. */
  lemma CurrentMonthShownFirst(currentYear: int, currentMonth: int, data: seq<MonthlyData>)
    requires 1 <= currentMonth <= 12 && YearOfMonths(data, currentYear)
    ensures Displayed(currentYear, currentMonth, data)[0].month == currentMonth
  {
    var key := KeyOrder(currentYear, currentMonth, currentYear);
    DisplayedByKey(currentYear, currentMonth, currentYear, data);
    var r := Displayed(currentYear, currentMonth, data);
    var current := data[currentMonth - 1];
    assert current in multiset(r);
    var j :| 0 <= j < |r| && r[j] == current;
    assert key(r[0], r[j]) by {
      if j > 0 {
        assert 0 < j;
      }
    }
    assert r[0] in multiset(data);
    var k :| 0 <= k < 12 && data[k] == r[0];
  }

  // ------------------------------------------------------ month names

  const MonthNames := ["Jan", "Fev", "Mar", "Abr", "Mai", "Jun", "Jul", "Ago", "Set", "Out", "Nov", "Dez"]

  /** `getMonthName`: `months[month - 1]`, undefined outside 1..12. */
  function MonthName(month: int): (r: Option<string>)
    ensures r.Some? <==> 1 <= month <= 12
  {
    if 1 <= month <= 12 then Some(MonthNames[month - 1]) else None
  }

  /** The twelve names are distinct, from 'Jan' to 'Dez'. */
  lemma MonthNamesDistinct(a: int, b: int)
    requires 1 <= a <= 12 && 1 <= b <= 12 && a != b
    ensures MonthName(a) != MonthName(b)
    ensures MonthName(1) == Some("Jan") && MonthName(12) == Some("Dez")
  {
    assert MonthNames[a - 1] != MonthNames[b - 1];
  }

  // ---------------------------------------------------- year selector

  /** The year selector: this year and the four before it, latest first. */
  function YearOptions(currentYear: int): (r: seq<int>)
    ensures |r| == 5 && r[0] == currentYear
    ensures forall i, j :: 0 <= i < j < 5 ==> r[i] > r[j]
    ensures forall y :: y in r <==> currentYear - 4 <= y <= currentYear
  {
    var r := seq(5, i requires 0 <= i < 5 => currentYear - i);
    assert forall y | currentYear - 4 <= y <= currentYear :: y in r by {
      forall y | currentYear - 4 <= y <= currentYear ensures y in r {
        assert r[currentYear - y] == y;
      }
    }
    r
  }
}
