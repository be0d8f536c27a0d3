/**
 * `/api/parcels`: GET lists the caller's parcel rows (the children of a
 * parceled transaction), optionally of one month and only the pending or only
 * the overdue ones; PUT marks one row paid or unpaid.
 */
module ParcelsRoute {
  import opened Wrappers
  import opened Calendar
  import opened Listing
  import opened Http
  import opened Ledger
  import opened CategoriesRoute

  /**
   * `status = 'pending'` keeps dates from today on, `'overdue'` dates before
   * today (`date('now')`), any other status keeps every date.
   */
  predicate StatusKeeps(status: string, date: Date, today: Date) {
    && (status == "pending" ==> DateLe(today, date))
    && (status == "overdue" ==> DateLt(date, today))
  }

  /** The GET filter: the caller's rows with `is_parceled = 1` and a parent. */
  predicate ParcelListed(r: Row, user: nat, month: string, year: string, status: string, today: Date) {
    && r.userId == user && r.isParceled && r.parentId.Some?
    && (month == "" || year == "" || InMonth(r.date, month, year))
    && StatusKeeps(status, r.date, today)
  }

  /** `ORDER BY t.date ASC` */
  predicate EarliestFirst(a: Row, b: Row) {
    DateLe(a.date, b.date)
  }

  lemma EarliestFirstTotalPreorder()
    ensures TotalPreorder(EarliestFirst)
  {
    DateLeIsTotalOrder();
  }

  function ListParcels(rows: seq<Row>, user: nat, month: string, year: string, status: string, today: Date): (r: seq<Row>)
    ensures forall x :: multiset(r)[x] == if ParcelListed(x, user, month, year, status, today) then multiset(rows)[x] else 0
    ensures SortedBy(r, EarliestFirst)
  {
    var keep := (x: Row) => ParcelListed(x, user, month, year, status, today);
    forall x ensures multiset(Filter(rows, keep))[x] == if keep(x) then multiset(rows)[x] else 0 {
      FilterMultiplicity(rows, keep, x);
    }
    EarliestFirstTotalPreorder();
    SortBySorted(Filter(rows, keep), EarliestFirst);
    SortBy(Filter(rows, keep), EarliestFirst)
  }

  /** The GET handler: 401 without a user, else the parcels with their category colours. */
  function Get(user: Option<nat>, rows: seq<Row>, categories: seq<Category>, month: string, year: string, status: string, today: Date): (r: Reply<seq<ColoredRow>>)
    ensures user.None? <==> r == Unauthorized(NotAuthenticated)
    ensures r.Ok? ==> r.body == JoinColors(ListParcels(rows, user.value, month, year, status, today), categories)
  {
    if user.None? then Unauthorized(NotAuthenticated) else Ok(JoinColors(ListParcels(rows, user.value, month, year, status, today), categories))
  }

  /** Pending and overdue parcels are disjoint and together are every parcel. */
  lemma StatusPartition(rows: seq<Row>, user: nat, month: string, year: string, today: Date)
    ensures var pending := ListParcels(rows, user, month, year, "pending", today);
      var overdue := ListParcels(rows, user, month, year, "overdue", today);
      && multiset(pending) + multiset(overdue) == multiset(ListParcels(rows, user, month, year, "all", today))
      && forall x :: !(x in pending && x in overdue)
  {
    var pending := ListParcels(rows, user, month, year, "pending", today);
    var overdue := ListParcels(rows, user, month, year, "overdue", today);
    var all := ListParcels(rows, user, month, year, "all", today);
    forall x ensures (multiset(pending) + multiset(overdue))[x] == multiset(all)[x] {
      StatusSplitsAt(rows, user, month, year, today, x);
    }
    assert multiset(pending) + multiset(overdue) == multiset(all);
    forall x ensures !(x in pending && x in overdue) {
      StatusSplitsAt(rows, user, month, year, today, x);
    }
  }

  /** One row's count in the pending and overdue listings: they add up to its count in the full listing, and one is zero. */
  lemma StatusSplitsAt(rows: seq<Row>, user: nat, month: string, year: string, today: Date, x: Row)
    ensures var pending := multiset(ListParcels(rows, user, month, year, "pending", today))[x];
      var overdue := multiset(ListParcels(rows, user, month, year, "overdue", today))[x];
      pending + overdue == multiset(ListParcels(rows, user, month, year, "all", today))[x]
      && (pending == 0 || overdue == 0)
  {
    var base := ParcelListed(x, user, month, year, "all", today);
    assert ParcelListed(x, user, month, year, "pending", today) == (base && DateLe(today, x.date));
    assert ParcelListed(x, user, month, year, "overdue", today) == (base && !DateLe(today, x.date));
  }

  /** A status other than 'pending' or 'overdue' (such as 'all' or none) applies no date filter. */
  lemma OtherStatusKeepsAll(rows: seq<Row>, user: nat, month: string, year: string, status: string, today: Date)
    requires status != "pending" && status != "overdue"
    ensures ListParcels(rows, user, month, year, status, today) == ListParcels(rows, user, month, year, "", today)
  {
    FilterSameCondition(rows, (x: Row) => ParcelListed(x, user, month, year, status, today),
                              (x: Row) => ParcelListed(x, user, month, year, "", today));
  }

  /** The month parameter may be sent with or without its leading zero. */
  lemma ParcelListedMonthLeadingZero(r: Row, user: nat, digit: char, year: string, status: string, today: Date)
    ensures ParcelListed(r, user, [digit], year, status, today) <==> ParcelListed(r, user, ['0', digit], year, status, today)
  {
    InMonthLeadingZero(r.date, digit, year);
  }

  // ------------------------------------------------------------------ PUT

  const MissingIdOrStatusError := "ID e status são obrigatórios"
  const UpdatedMessage := "Parcela atualizada com sucesso"

  /**
   * What a PUT answers: 401, 400 when `id` is falsy (0 or absent) or `paid` is
   * not a boolean (`None`), otherwise success whether or not a row matched.
   */
  function PutReply(user: Option<nat>, id: int, paid: Option<bool>): Reply<string> {
    if user.None? then Unauthorized(NotAuthenticated)
    else if id == 0 || paid.None? then BadRequest(MissingIdOrStatusError)
    else Ok(UpdatedMessage)
  }

  /** The PUT handler: `UPDATE transactions SET paid, paid_at WHERE id = ? AND user_id = ?`. */
  method Put(table: TransactionTable, user: Option<nat>, id: int, paid: Option<bool>, now: Timestamp) returns (reply: Reply<string>)
    requires table.Valid()
    modifies table
    ensures table.Valid()
    ensures reply == PutReply(user, id, paid)
    ensures table.rows == if reply.Ok? then MarkPaid(old(table.rows), id, user.value, paid.value, now) else old(table.rows)
    ensures table.nextId == old(table.nextId)
  {
    if user.None? {
      return Unauthorized(NotAuthenticated);
    }
    if id == 0 || paid.None? {
      return BadRequest(MissingIdOrStatusError);
    }
    table.SetPaid(id, user.value, paid.value, now);
    return Ok(UpdatedMessage);
  }

  /**
   * An accepted PUT sets `paid` on the caller's row with that id, and
   * `paid_at` exactly when paid is true; a row of another owner or with
   * another id keeps every column.
   */
  lemma PutEffect(rows: seq<Row>, user: nat, id: int, paid: bool, now: Timestamp, i: nat)
    requires PutReply(Some(user), id, Some(paid)).Ok?
    requires i < |rows|
    ensures var after := MarkPaid(rows, id, user, paid, now);
      && (rows[i].id == id && rows[i].userId == user ==>
            after[i].paid == Some(paid) && (after[i].paidAt.Some? <==> paid)
            && after[i] == rows[i].(paid := after[i].paid, paidAt := after[i].paidAt))
      && (rows[i].id != id || rows[i].userId != user ==> after[i] == rows[i])
  {
  }

  /** A PUT for an unknown id or another owner's row still answers success and changes nothing. */
  lemma PutWithoutMatch(rows: seq<Row>, user: nat, id: int, paid: bool, now: Timestamp)
    requires id != 0
    requires forall i :: 0 <= i < |rows| ==> rows[i].id != id || rows[i].userId != user
    ensures PutReply(Some(user), id, Some(paid)) == Ok(UpdatedMessage)
    ensures MarkPaid(rows, id, user, paid, now) == rows
  {
    MarkPaidNoMatch(rows, id, user, paid, now);
  }
}
