/**
 * `/api/summary`: the caller's monthly totals and counts by type, the
 * pending parcels from today on (of any month) and the five expense
 * categories with the largest totals in the month.
 */
module SummaryRoute {
  import opened Wrappers
  import opened Text
  import opened Calendar
  import opened Listing
  import opened Http
  import opened Ledger
  import opened Aggregates
  import ParcelsRoute
  import TransactionsRoute

  /** `summary` of the response; `month` and `year` are `parseInt` of the parameters (None for NaN). */
  datatype MonthlySummary = MonthlySummary(
    month: Option<int>,
    year: Option<int>,
    totalIncome: real,
    totalExpense: real,
    balance: real,
    incomeCount: nat,
    expenseCount: nat,
    transactionCount: nat)

  /** The columns the pending-parcels query selects. */
  datatype PendingParcel = PendingParcel(
    parentId: Option<nat>,
    description: string,
    totalParcels: int,
    currentParcel: Option<int>,
    amount: real,
    date: Date,
    kind: string,
    category: string)

  /** One row of `SELECT category, SUM(amount) as total, COUNT(*) as count ... GROUP BY category`. */
  datatype CategoryGroup = CategoryGroup(category: string, total: real, count: nat)

  datatype Report = Report(summary: MonthlySummary, pendingParcels: seq<PendingParcel>, topCategories: seq<CategoryGroup>)

  const MissingMonthError := "Mês e ano são obrigatórios"

  // ---------------------------------------------------------- pending parcels

  /** `user_id = ? AND is_parceled = 1 AND parent_transaction_id IS NOT NULL AND date >= date('now')` */
  predicate PendingRow(r: Row, user: nat, today: Date) {
    r.userId == user && r.isParceled && r.parentId.Some? && DateLe(today, r.date)
  }

  function Project(r: Row): PendingParcel {
    PendingParcel(r.parentId, r.description, r.totalParcels, r.currentParcel, r.amount, r.date, r.kind, r.category)
  }

  function PendingRows(rows: seq<Row>, user: nat, today: Date): seq<Row> {
    SortBy(Filter(rows, (x: Row) => PendingRow(x, user, today)), ParcelsRoute.EarliestFirst)
  }

  function PendingParcels(rows: seq<Row>, user: nat, today: Date): seq<PendingParcel> {
    Map(PendingRows(rows, user, today), Project)
  }

  /**
   * The pending parcels are exactly the parcels listing with status 'pending'
   * and no month, projected: they are not limited to the requested month.
   */
  lemma PendingIsParcelsListing(rows: seq<Row>, user: nat, today: Date)
    ensures PendingRows(rows, user, today) == ParcelsRoute.ListParcels(rows, user, "", "", "pending", today)
  {
    FilterSameCondition(rows, (x: Row) => PendingRow(x, user, today),
                              (x: Row) => ParcelsRoute.ParcelListed(x, user, "", "", "pending", today));
  }

  /** Pending parcels are the caller's parcel rows dated today or later, earliest first. */
  lemma PendingParcelsSpec(rows: seq<Row>, user: nat, today: Date)
    ensures forall x :: multiset(PendingRows(rows, user, today))[x] == if PendingRow(x, user, today) then multiset(rows)[x] else 0
    ensures SortedBy(PendingParcels(rows, user, today), (a: PendingParcel, b: PendingParcel) => DateLe(a.date, b.date))
    ensures forall i :: 0 <= i < |PendingParcels(rows, user, today)| ==> PendingParcels(rows, user, today)[i].parentId.Some?
  {
    PendingIsParcelsListing(rows, user, today);
    var p := PendingRows(rows, user, today);
    forall x ensures multiset(p)[x] == if PendingRow(x, user, today) then multiset(rows)[x] else 0 {
      assert PendingRow(x, user, today) == ParcelsRoute.ParcelListed(x, user, "", "", "pending", today);
    }
    forall i | 0 <= i < |p| ensures p[i].parentId.Some? {
      assert multiset(p)[p[i]] > 0;
    }
  }

  // ---------------------------------------------------------- top categories

  /** `user_id = ? AND type = 'expense' AND` the month. */
  function ExpenseRows(rows: seq<Row>, user: nat, month: string, year: string): seq<Row> {
    MonthRows(rows, user, month, year, "expense")
  }

  function Group(rows: seq<Row>, c: string): CategoryGroup {
    CategoryGroup(c, CategoryTotal(rows, c), |RowsOfCategory(rows, c)|)
  }

  /** `GROUP BY category`, before ordering. */
  function Groups(rows: seq<Row>): (r: seq<CategoryGroup>)
    ensures forall g :: g in r <==> g.category in Categories(rows) && g == Group(rows, g.category)
  {
    var cs := Categories(rows);
    var r := Map(cs, (c: string) => Group(rows, c));
    assert forall g :: g in r ==> g.category in cs && g == Group(rows, g.category) by {
      forall g | g in r ensures g.category in cs && g == Group(rows, g.category) {
        var i :| 0 <= i < |r| && r[i] == g;
        assert r[i] == Group(rows, cs[i]);
      }
    }
    assert forall c :: c in cs ==> Group(rows, c) in r by {
      forall c | c in cs ensures Group(rows, c) in r {
        var i :| 0 <= i < |cs| && cs[i] == c;
        assert r[i] == Group(rows, c);
      }
    }
    r
  }

  /** `ORDER BY total DESC` */
  predicate LargerTotal(a: CategoryGroup, b: CategoryGroup) {
    a.total >= b.total
  }

  lemma LargerTotalTotalPreorder()
    ensures TotalPreorder(LargerTotal)
  {
  }

  function SortedGroups(rows: seq<Row>): (r: seq<CategoryGroup>)
    ensures multiset(r) == multiset(Groups(rows))
    ensures SortedBy(r, LargerTotal)
  {
    LargerTotalTotalPreorder();
    SortBySorted(Groups(rows), LargerTotal);
    SortBy(Groups(rows), LargerTotal)
  }

  /** The five largest groups of some rows, largest first. */
  function TopGroups(expenses: seq<Row>): (r: seq<CategoryGroup>)
    ensures |r| <= 5
    ensures SortedBy(r, LargerTotal)
    ensures forall g :: g in r ==> g.category in Categories(expenses) && g == Group(expenses, g.category)
  {
    var sorted := SortedGroups(expenses);
    TakeOfSorted(sorted, Groups(expenses));
    Take(sorted, 5)
  }

  /** The first five of a sorted reordering of some groups are sorted and are among those groups. */
  lemma TakeOfSorted(sorted: seq<CategoryGroup>, groups: seq<CategoryGroup>)
    requires multiset(sorted) == multiset(groups)
    requires SortedBy(sorted, LargerTotal)
    ensures SortedBy(Take(sorted, 5), LargerTotal)
    ensures forall g :: g in Take(sorted, 5) ==> g in groups
  {
    var r := Take(sorted, 5);
    forall g | g in r ensures g in groups {
      assert g in sorted;
      assert g in multiset(sorted);
    }
  }

  /** `... GROUP BY category ORDER BY total DESC LIMIT 5` over the month's expense rows. */
  function TopCategories(rows: seq<Row>, user: nat, month: string, year: string): (r: seq<CategoryGroup>)
    ensures |r| <= 5
    ensures SortedBy(r, LargerTotal)
    ensures forall g :: g in r ==>
      var expenses := ExpenseRows(rows, user, month, year);
      g.category in Categories(expenses) && g == Group(expenses, g.category)
  {
    TopGroups(ExpenseRows(rows, user, month, year))
  }

  /** The groups kept have distinct categories. */
  lemma TopCategoriesDistinct(rows: seq<Row>, user: nat, month: string, year: string)
    ensures var top := TopCategories(rows, user, month, year);
      forall i, j :: 0 <= i < j < |top| ==> top[i].category != top[j].category
  {
    var expenses := ExpenseRows(rows, user, month, year);
    var groups := Groups(expenses);
    var sorted := SortedGroups(expenses);
    var top := TopCategories(rows, user, month, year);
    assert NoDuplicates(groups) by {
      var cs := Categories(expenses);
      forall i, j | 0 <= i < j < |groups| ensures groups[i] != groups[j] {
        assert groups[i].category == cs[i] && groups[j].category == cs[j];
      }
    }
    NoDuplicatesPermutation(groups, sorted);
    forall i, j | 0 <= i < j < |top| ensures top[i].category != top[j].category {
      assert top[i] == sorted[i] && top[j] == sorted[j];
      assert top[i] in top && top[j] in top;
    }
  }

  /**
   * LIMIT 5 keeps the largest: an expense category of the month that was left
   * out has a total no larger than any kept one, and five were kept.
   */
  lemma TopCategoriesLargest(rows: seq<Row>, user: nat, month: string, year: string, c: string)
    requires c in Categories(ExpenseRows(rows, user, month, year))
    requires forall g :: g in TopCategories(rows, user, month, year) ==> g.category != c
    ensures |TopCategories(rows, user, month, year)| == 5
    ensures forall g :: g in TopCategories(rows, user, month, year) ==> g.total >= CategoryTotal(ExpenseRows(rows, user, month, year), c)
  {
    TopGroupsLargest(ExpenseRows(rows, user, month, year), c);
  }

  lemma TopGroupsLargest(expenses: seq<Row>, c: string)
    requires c in Categories(expenses)
    requires forall g :: g in TopGroups(expenses) ==> g.category != c
    ensures |TopGroups(expenses)| == 5
    ensures forall g :: g in TopGroups(expenses) ==> g.total >= CategoryTotal(expenses, c)
  {
    var sorted := SortedGroups(expenses);
    var g0 := Group(expenses, c);
    assert g0 in Groups(expenses);
    assert g0 in multiset(sorted);
    assert TopGroups(expenses) == Take(sorted, 5);
    TakeKeepsLargest(sorted, g0);
  }

  /** Of a list sorted largest first, a group not among the first five has five before it, none smaller. */
  lemma TakeKeepsLargest(sorted: seq<CategoryGroup>, g0: CategoryGroup)
    requires SortedBy(sorted, LargerTotal)
    requires g0 in sorted
    requires forall g :: g in Take(sorted, 5) ==> g.category != g0.category
    ensures |Take(sorted, 5)| == 5
    ensures forall g :: g in Take(sorted, 5) ==> g.total >= g0.total
  {
    var top := Take(sorted, 5);
    var k :| 0 <= k < |sorted| && sorted[k] == g0;
    assert k >= |top| by {
      forall j | 0 <= j < |top| ensures sorted[j] != g0 {
        assert top[j] == sorted[j];
        assert top[j] in top;
      }
    }
    forall g | g in top ensures g.total >= g0.total {
      var j :| 0 <= j < |top| && top[j] == g;
      assert top[j] == sorted[j];
      assert LargerTotal(sorted[j], sorted[k]);
    }
  }

  // ---------------------------------------------------------- the handler

  function MonthSummary(rows: seq<Row>, user: nat, month: string, year: string): MonthlySummary {
    var income := MonthTotal(rows, user, month, year, "income");
    var expense := MonthTotal(rows, user, month, year, "expense");
    var incomeCount := MonthCount(rows, user, month, year, "income");
    var expenseCount := MonthCount(rows, user, month, year, "expense");
    MonthlySummary(ParseInt(month), ParseInt(year), income, expense, income - expense,
                   incomeCount, expenseCount, incomeCount + expenseCount)
  }

  /** The GET handler: 401, 400 without month or year, else the report. */
  function Summary(user: Option<nat>, rows: seq<Row>, month: string, year: string, today: Date): (r: Reply<Report>)
    ensures user.None? <==> r == Unauthorized(NotAuthenticated)
    ensures r == BadRequest(MissingMonthError) <==> user.Some? && (month == "" || year == "")
    ensures r.Ok? ==>
      && r.body.summary.totalIncome == MonthTotal(rows, user.value, month, year, "income")
      && r.body.summary.totalExpense == MonthTotal(rows, user.value, month, year, "expense")
      && r.body.summary.balance == r.body.summary.totalIncome - r.body.summary.totalExpense
      && r.body.summary.month == ParseInt(month) && r.body.summary.year == ParseInt(year)
      && r.body.summary.incomeCount == MonthCount(rows, user.value, month, year, "income")
      && r.body.summary.expenseCount == MonthCount(rows, user.value, month, year, "expense")
      && r.body.summary.transactionCount == r.body.summary.incomeCount + r.body.summary.expenseCount
      && r.body.pendingParcels == PendingParcels(rows, user.value, today)
      && r.body.topCategories == TopCategories(rows, user.value, month, year)
  {
    if user.None? then Unauthorized(NotAuthenticated)
    else if month == "" || year == "" then BadRequest(MissingMonthError)
    else Ok(Report(MonthSummary(rows, user.value, month, year), PendingParcels(rows, user.value, today),
                   TopCategories(rows, user.value, month, year)))
  }

  /**
   * When every row of the caller has type 'income' or 'expense' (as the
   * table's CHECK demands), `transactionCount` is the number of the caller's
   * rows in the month.
   */
  lemma {:induction false} TransactionCountIsMonthRows(rows: seq<Row>, user: nat, month: string, year: string)
    requires forall i :: 0 <= i < |rows| ==> rows[i].kind == "income" || rows[i].kind == "expense"
    ensures MonthCount(rows, user, month, year, "income") + MonthCount(rows, user, month, year, "expense")
            == |Filter(rows, (x: Row) => OfMonth(x, user, month, year))|
  {
    if |rows| > 0 {
      TransactionCountIsMonthRows(rows[1..], user, month, year);
    }
  }

  /** A month and year sent as plain numbers come back in the reply as those numbers. */
  lemma SummaryEchoesMonth(user: nat, rows: seq<Row>, m: nat, y: nat, today: Date)
    ensures var r := Summary(Some(user), rows, NatToText(m), NatToText(y), today);
      r.Ok? && r.body.summary.month == Some(m) && r.body.summary.year == Some(y)
  {
    ParseIntOfText(m);
    ParseIntOfText(y);
  }

  /** The reply's `transactionCount` is the number of the caller's rows in the month. */
  lemma SummaryCountsMonthRows(user: Option<nat>, rows: seq<Row>, month: string, year: string, today: Date)
    requires forall i :: 0 <= i < |rows| ==> rows[i].kind == "income" || rows[i].kind == "expense"
    requires Summary(user, rows, month, year, today).Ok?
    ensures Summary(user, rows, month, year, today).body.summary.transactionCount
            == |Filter(rows, (x: Row) => OfMonth(x, user.value, month, year))|
  {
    TransactionCountIsMonthRows(rows, user.value, month, year);
  }

  /** A single row adds its amount to its own type's total in its own month, and nothing elsewhere. */
  lemma MonthTotalSingle(r: Row, user: nat, month: string, year: string, kind: string)
    ensures MonthTotal([r], user, month, year, kind) == if OfMonth(r, user, month, year) && r.kind == kind then r.amount else 0.0
  {
    var p := (x: Row) => OfMonth(x, user, month, year) && x.kind == kind;
    FilterSingleton(r, p);
    SumBySingleton(r, Amount);
  }

  /** Parcels 2..N are dated in months after the purchase's month. */
  lemma LaterParcelsOutsideMonth(user: nat, q: TransactionsRoute.NewTransaction, d: Date, firstId: nat, now: Timestamp)
    requires q.totalParcels > 1
    requires ValidDate(d) && 1000 <= d.year
    ensures var ps := TransactionsRoute.Parcels(user, q, d, firstId, now);
      forall i :: 1 <= i < |ps| ==> !OfMonth(ps[i], user, NatToText(d.month), NatToText(d.year))
  {
    var ps := TransactionsRoute.Parcels(user, q, d, firstId, now);
    forall i | 1 <= i < |ps| ensures !OfMonth(ps[i], user, NatToText(d.month), NatToText(d.year)) {
      TransactionsRoute.ParcelAt(user, q, d, firstId, now, i);
      InMonthOfNumbers(ps[i].date, d.month, d.year);
      MonthIndexOrder(ps[i].date, d);
    }
  }

  /**
   * No `is_parceled` filter: after a parceled purchase, the total of the
   * purchase's month counts the anchor's full amount and the first parcel too
   * (the later parcels fall in later months).
   */
  lemma MonthTotalCountsAnchorAndFirstParcel(user: nat, q: TransactionsRoute.NewTransaction, firstId: nat, now: Timestamp)
    requires !TransactionsRoute.MissingField(q) && !TransactionsRoute.FixedAndParceled(q) && TransactionsRoute.SplitsIntoParcels(q)
    requires ValidDate(q.date.value) && 1000 <= q.date.value.year
    ensures var d := q.date.value;
      MonthTotal(TransactionsRoute.PostRows(user, q, firstId, now), user, NatToText(d.month), NatToText(d.year), q.kind)
      == q.amount + q.amount / q.totalParcels as real
  {
    var d := q.date.value;
    var month, year := NatToText(d.month), NatToText(d.year);
    var ps := TransactionsRoute.Parcels(user, q, d, firstId, now);
    var anchor := TransactionsRoute.Anchor(user, q, d, firstId, now);
    assert TransactionsRoute.PostRows(user, q, firstId, now) == [anchor] + [ps[0]] + ps[1..];
    MonthTotalAppend([anchor] + [ps[0]], ps[1..], user, month, year, q.kind);
    MonthTotalAppend([anchor], [ps[0]], user, month, year, q.kind);
    InMonthOfNumbers(d, d.month, d.year);
    MonthTotalSingle(anchor, user, month, year, q.kind);
    TransactionsRoute.ParcelAt(user, q, d, firstId, now, 0);
    AddMonthsZero(d);
    MonthTotalSingle(ps[0], user, month, year, q.kind);
    LaterParcelsOutsideMonth(user, q, d, firstId, now);
    MonthTotalNone(ps[1..], user, month, year, q.kind);
  }
}
