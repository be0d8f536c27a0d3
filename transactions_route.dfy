/**
 * `/api/transactions`: POST creates a transaction, which is one row, one
 * anchor row and its parcel rows, or one row and twelve monthly follow-ups;
 * GET lists the caller's transactions without the parcel rows.
 */
module TransactionsRoute {
  import opened Wrappers
  import opened Text
  import opened Calendar
  import opened Listing
  import opened Http
  import opened Ledger
  import opened CategoriesRoute

  /**
   * The JSON body of a POST. A field that is absent or falsy in JavaScript is
   * "" / 0.0 / None / false here; `date` is None when absent or empty.
   */
  datatype NewTransaction = NewTransaction(
    description: string,
    amount: real,
    kind: string,
    category: string,
    date: Option<Date>,
    isParceled: bool,
    totalParcels: int,
    paid: Option<bool>,
    isFixed: bool)

  const MissingFieldsError := "Campos obrigatórios não fornecidos"
  const FixedAndParceledError := "Um item não pode ser fixo e parcelado ao mesmo tempo"

  /** `!description || !amount || !type || !category || !date`; an amount of 0 is missing too. */
  predicate MissingField(q: NewTransaction) {
    q.description == "" || q.amount == 0.0 || q.kind == "" || q.category == "" || q.date.None?
  }

  predicate FixedAndParceled(q: NewTransaction) {
    q.isFixed && q.isParceled
  }

  /** `is_parceled && total_parcels > 1`: the request becomes an anchor and parcels. */
  predicate SplitsIntoParcels(q: NewTransaction) {
    q.isParceled && q.totalParcels > 1
  }

  /** `${description} (${i}/${total_parcels})` */
  function ParcelDescription(description: string, i: nat, n: nat): string {
    description + " (" + NatToText(i) + "/" + NatToText(n) + ")"
  }

  // ------------------------------------------------ the rows each branch writes

  /** The reference row of a parceled transaction: full amount, `is_parceled = 0`, paid by column default 0. */
  function Anchor(user: nat, q: NewTransaction, date: Date, id: nat, now: Timestamp): Row {
    Row(id, user, q.description, q.amount, q.kind, q.category, date,
        false, q.totalParcels, None, None, q.isFixed, Some(false), None, now)
  }

  /** Parcel `i` of `total_parcels`, dated `i - 1` months after the request's date. */
  function Parcel(user: nat, q: NewTransaction, date: Date, anchor: nat, i: nat, id: nat, now: Timestamp): Row
    requires q.totalParcels > 1
  {
    Row(id, user, ParcelDescription(q.description, i, q.totalParcels), q.amount / q.totalParcels as real,
        q.kind, q.category, AddMonths(date, i - 1),
        true, q.totalParcels, Some(i), Some(anchor), q.isFixed, q.paid, None, now)
  }

  /** The single row of a transaction that is not split into parcels. */
  function Plain(user: nat, q: NewTransaction, date: Date, id: nat, now: Timestamp): Row {
    Row(id, user, q.description, q.amount, q.kind, q.category, date,
        false, 1, Some(1), None, q.isFixed, q.paid, None, now)
  }

  /** Follow-up `k` of a fixed transaction, `k` months after its start, always unpaid. */
  function FollowUp(user: nat, origin: nat, description: string, amount: real, kind: string, category: string,
                    start: Date, k: nat, id: nat, now: Timestamp): Row
  {
    Row(id, user, description, amount, kind, category, AddMonths(start, k),
        false, 1, Some(1), Some(origin), true, Some(false), None, now)
  }

  /** Parcels 1..N with the ids that follow the anchor's. */
  function Parcels(user: nat, q: NewTransaction, date: Date, anchor: nat, now: Timestamp): (r: seq<Row>)
    requires q.totalParcels > 1
    ensures |r| == q.totalParcels
  {
    seq(q.totalParcels, k requires 0 <= k < q.totalParcels => Parcel(user, q, date, anchor, k + 1, anchor + 1 + k, now))
  }

  /** Follow-ups 1..12 with the ids that follow the origin's. */
  function FollowUps(user: nat, origin: nat, description: string, amount: real, kind: string, category: string,
                     start: Date, now: Timestamp): (r: seq<Row>)
    ensures |r| == 12
  {
    seq(12, k requires 0 <= k < 12 => FollowUp(user, origin, description, amount, kind, category, start, k + 1, origin + 1 + k, now))
  }

  lemma ParcelAt(user: nat, q: NewTransaction, date: Date, anchor: nat, now: Timestamp, k: nat)
    requires q.totalParcels > 1 && k < q.totalParcels
    ensures Parcels(user, q, date, anchor, now)[k] == Parcel(user, q, date, anchor, k + 1, anchor + 1 + k, now)
  {
  }

  lemma FollowUpAt(user: nat, origin: nat, description: string, amount: real, kind: string, category: string,
                   start: Date, now: Timestamp, k: nat)
    requires k < 12
    ensures FollowUps(user, origin, description, amount, kind, category, start, now)[k]
            == FollowUp(user, origin, description, amount, kind, category, start, k + 1, origin + 1 + k, now)
  {
  }

  /** The rows a POST by `user` appends to a table whose next id is `firstId`. */
  function PostRows(user: nat, q: NewTransaction, firstId: nat, now: Timestamp): seq<Row> {
    if MissingField(q) || FixedAndParceled(q) then []
    else if SplitsIntoParcels(q) then
      [Anchor(user, q, q.date.value, firstId, now)] + Parcels(user, q, q.date.value, firstId, now)
    else
      [Plain(user, q, q.date.value, firstId, now)]
      + (if q.isFixed then FollowUps(user, firstId, q.description, q.amount, q.kind, q.category, q.date.value, now) else [])
  }

  /** What a POST answers: 401, 400 for a missing field, 400 for fixed and parceled, else the id of the first row. */
  function PostReply(user: Option<nat>, q: NewTransaction, firstId: nat): Reply<nat> {
    if user.None? then Unauthorized(NotAuthenticated)
    else if MissingField(q) then BadRequest(MissingFieldsError)
    else if FixedAndParceled(q) then BadRequest(FixedAndParceledError)
    else Ok(firstId)
  }

  // ------------------------------------------------------------ the handler

  /** The parcel loop of the POST handler: parcels 1..N, each linked to the anchor. */
  method InsertParcels(table: TransactionTable, u: nat, q: NewTransaction, date: Date, parentId: nat, now: Timestamp)
    requires table.Valid()
    requires q.totalParcels > 1
    requires HasRow(table.rows, parentId, u)
    requires table.nextId == parentId + 1
    modifies table
    ensures table.Valid()
    ensures table.rows == old(table.rows) + Parcels(u, q, date, parentId, now)
    ensures table.nextId == old(table.nextId) + q.totalParcels
  {
    ghost var before := table.rows;
    ghost var all := Parcels(u, q, date, parentId, now);
    ghost var anchor :| 0 <= anchor < |before| && before[anchor].id == parentId && before[anchor].userId == u;
    var i := 1;
    while i <= q.totalParcels
      invariant 1 <= i <= q.totalParcels + 1
      invariant table.Valid()
      invariant table.rows == before + all[..i - 1]
      invariant table.nextId == parentId + i
      invariant table.rows[anchor] == before[anchor]
    {
      var parcel := table.Insert(Parcel(u, q, date, parentId, i, 0, now));
      ParcelAt(u, q, date, parentId, now, i - 1);
      assert Parcel(u, q, date, parentId, i, 0, now).(id := parcel) == Parcel(u, q, date, parentId, i, parcel, now);
      assert all[..i] == all[..i - 1] + [all[i - 1]];
      i := i + 1;
    }
    assert all[..q.totalParcels] == all;
  }

  /** `createFixedTransactions`: twelve monthly copies of the origin row, linked to it. */
  method CreateFixedTransactions(table: TransactionTable, userId: nat, parentId: nat, description: string,
                                 amount: real, kind: string, category: string, startDate: Date, now: Timestamp)
    requires table.Valid()
    requires HasRow(table.rows, parentId, userId)
    requires table.nextId == parentId + 1
    modifies table
    ensures table.Valid()
    ensures table.rows == old(table.rows) + FollowUps(userId, parentId, description, amount, kind, category, startDate, now)
    ensures table.nextId == old(table.nextId) + 12
  {
    ghost var before := table.rows;
    ghost var all := FollowUps(userId, parentId, description, amount, kind, category, startDate, now);
    var i := 1;
    while i <= 12
      invariant 1 <= i <= 13
      invariant table.Valid()
      invariant table.rows == before + all[..i - 1]
      invariant table.nextId == parentId + i
      invariant HasRow(table.rows, parentId, userId)
    {
      var next := FollowUp(userId, parentId, description, amount, kind, category, startDate, i, 0, now);
      var id := table.Insert(next);
      FollowUpAt(userId, parentId, description, amount, kind, category, startDate, now, i - 1);
      assert next.(id := id) == FollowUp(userId, parentId, description, amount, kind, category, startDate, i, id, now);
      assert all[..i] == all[..i - 1] + [all[i - 1]];
      i := i + 1;
      assert HasRow(before, parentId, userId);
      ghost var j :| 0 <= j < |before| && before[j].id == parentId && before[j].userId == userId;
      assert table.rows[j] == before[j];
    }
    assert all[..12] == all;
  }

  /** The POST handler: validation, then the parceled branch or the plain (and possibly fixed) branch. */
  method Post(table: TransactionTable, user: Option<nat>, q: NewTransaction, now: Timestamp) returns (reply: Reply<nat>)
    requires table.Valid()
    modifies table
    ensures table.Valid()
    ensures reply == PostReply(user, q, old(table.nextId))
    ensures table.rows == old(table.rows) + (if user.Some? then PostRows(user.value, q, old(table.nextId), now) else [])
    ensures table.nextId == old(table.nextId) + (if user.Some? then |PostRows(user.value, q, old(table.nextId), now)| else 0)
  {
    if user.None? {
      return Unauthorized(NotAuthenticated);
    }
    var u := user.value;
    if MissingField(q) {
      return BadRequest(MissingFieldsError);
    }
    if FixedAndParceled(q) {
      return BadRequest(FixedAndParceledError);
    }
    var date := q.date.value;
    ghost var before := table.rows;
    if SplitsIntoParcels(q) {
      var parentId := table.Insert(Anchor(u, q, date, 0, now));
      assert table.rows[|table.rows| - 1].id == parentId;
      InsertParcels(table, u, q, date, parentId, now);
      assert table.rows == before + ([Anchor(u, q, date, parentId, now)] + Parcels(u, q, date, parentId, now));
      return Ok(parentId);
    } else {
      var transactionId := table.Insert(Plain(u, q, date, 0, now));
      if q.isFixed {
        assert table.rows[|table.rows| - 1].id == transactionId;
        CreateFixedTransactions(table, u, transactionId, q.description, q.amount, q.kind, q.category, date, now);
        assert table.rows == before + ([Plain(u, q, date, transactionId, now)]
          + FollowUps(u, transactionId, q.description, q.amount, q.kind, q.category, date, now));
      }
      return Ok(transactionId);
    }
  }

  // ---------------------------------------------------------- what POST writes

  /** A rejected or unauthenticated POST writes nothing; an accepted one answers with the id of its first row. */
  lemma PostRejected(user: nat, q: NewTransaction, firstId: nat, now: Timestamp)
    ensures PostRows(user, q, firstId, now) == [] <==> MissingField(q) || FixedAndParceled(q)
    ensures PostReply(Some(user), q, firstId).Ok? <==> PostRows(user, q, firstId, now) != []
    ensures PostRows(user, q, firstId, now) != [] ==> PostRows(user, q, firstId, now)[0].id == PostReply(Some(user), q, firstId).body
  {
  }

  /** How many rows a POST writes: 1 + N when split, 13 when fixed, 1 otherwise. */
  lemma PostRowCount(user: nat, q: NewTransaction, firstId: nat, now: Timestamp)
    requires !MissingField(q) && !FixedAndParceled(q)
    ensures |PostRows(user, q, firstId, now)| ==
      if SplitsIntoParcels(q) then 1 + q.totalParcels else if q.isFixed then 13 else 1
  {
  }

  /** Every written row belongs to the caller, and the ids are consecutive from the table's next id. */
  lemma PostRowsOwnedAndNumbered(user: nat, q: NewTransaction, firstId: nat, now: Timestamp)
    ensures forall i :: 0 <= i < |PostRows(user, q, firstId, now)| ==>
      PostRows(user, q, firstId, now)[i].userId == user && PostRows(user, q, firstId, now)[i].id == firstId + i
  {
    var rows := PostRows(user, q, firstId, now);
    forall i | 1 <= i < |rows| ensures rows[i].userId == user && rows[i].id == firstId + i {
      if SplitsIntoParcels(q) {
        ParcelAt(user, q, q.date.value, firstId, now, i - 1);
      } else {
        FollowUpAt(user, firstId, q.description, q.amount, q.kind, q.category, q.date.value, now, i - 1);
      }
    }
  }

  /** The first row written has no parent; every later one links to it. */
  lemma PostRowsLinks(user: nat, q: NewTransaction, firstId: nat, now: Timestamp)
    ensures var rows := PostRows(user, q, firstId, now);
      && (rows != [] ==> rows[0].parentId.None?)
      && forall i :: 1 <= i < |rows| ==> rows[i].parentId == Some(firstId)
  {
    var rows := PostRows(user, q, firstId, now);
    forall i | 1 <= i < |rows| ensures rows[i].parentId == Some(firstId) {
      if SplitsIntoParcels(q) {
        ParcelAt(user, q, q.date.value, firstId, now, i - 1);
      } else {
        FollowUpAt(user, firstId, q.description, q.amount, q.kind, q.category, q.date.value, now, i - 1);
      }
    }
  }

  /** An accepted POST keeps the table consistent: every parcel and follow-up links to the row written first. */
  lemma {:induction false} PostRowsConsistent(s: seq<Row>, user: nat, q: NewTransaction, firstId: nat, now: Timestamp)
    requires Consistent(s, firstId)
    ensures Consistent(s + PostRows(user, q, firstId, now), firstId + |PostRows(user, q, firstId, now)|)
  {
    var rows := PostRows(user, q, firstId, now);
    var t := s + rows;
    PostRowsOwnedAndNumbered(user, q, firstId, now);
    PostRowsLinks(user, q, firstId, now);
    forall i, j | 0 <= i < j < |t| ensures IdBefore(t[i], t[j]) {
      if j < |s| {
        assert IdBefore(s[i], s[j]);
      } else if i < |s| {
        assert t[i].id < firstId;
        assert t[j] == rows[j - |s|];
      } else {
        assert t[i] == rows[i - |s|] && t[j] == rows[j - |s|];
      }
    }
    forall i | 0 <= i < |t| && t[i].parentId.Some? ensures HasRow(t, t[i].parentId.value, t[i].userId) {
      if i < |s| {
        assert HasRow(s, s[i].parentId.value, s[i].userId);
        var j :| 0 <= j < |s| && s[j].id == s[i].parentId.value && s[j].userId == s[i].userId;
        assert t[j] == s[j];
      } else {
        assert t[i] == rows[i - |s|];
        assert t[|s|] == rows[0];
      }
    }
  }

  /**
   * The parceled branch: the anchor carries the full amount, `is_parceled = 0`,
   * `total_parcels = N` and no parent or parcel number; parcel `i` is
   * "<description> (i/N)", an N-th of the amount, linked to the anchor,
   * numbered `i`, paid as the request says, dated `i - 1` months later.
   */
  lemma ParceledRows(user: nat, q: NewTransaction, firstId: nat, now: Timestamp)
    requires !MissingField(q) && !FixedAndParceled(q) && SplitsIntoParcels(q)
    ensures var rows := PostRows(user, q, firstId, now);
      && var anchor := rows[0];
      && anchor.amount == q.amount && !anchor.isParceled && anchor.totalParcels == q.totalParcels
      && anchor.parentId.None? && anchor.currentParcel.None? && anchor.date == q.date.value
      && forall i :: 1 <= i <= q.totalParcels ==>
           && rows[i].description == q.description + " (" + NatToText(i) + "/" + NatToText(q.totalParcels) + ")"
           && rows[i].amount == q.amount / q.totalParcels as real
           && rows[i].isParceled && rows[i].totalParcels == q.totalParcels
           && rows[i].currentParcel == Some(i) && rows[i].parentId == Some(anchor.id)
           && rows[i].paid == q.paid && !rows[i].isFixed
           && MonthIndex(rows[i].date) == MonthIndex(q.date.value) + i - 1
           && rows[i].date.day == q.date.value.day
  {
    var rows := PostRows(user, q, firstId, now);
    forall i | 1 <= i <= q.totalParcels
      ensures rows[i] == Parcel(user, q, q.date.value, firstId, i, firstId + i, now)
    {
      ParcelAt(user, q, q.date.value, firstId, now, i - 1);
    }
  }

  /** The parcels' amounts add up to the amount of the purchase. */
  lemma ParcelsSumToAmount(user: nat, q: NewTransaction, date: Date, anchor: nat, now: Timestamp)
    requires q.totalParcels > 1
    ensures SumBy(Parcels(user, q, date, anchor, now), Amount) == q.amount
  {
    var ps := Parcels(user, q, date, anchor, now);
    var n := q.totalParcels as real;
    forall i | 0 <= i < |ps| ensures ps[i].amount == q.amount / n {
      ParcelAt(user, q, date, anchor, now, i);
    }
    SumByConstant(ps, Amount, q.amount / q.totalParcels as real);
  }

  /** The parcels fall in consecutive months, one per month, in order. */
  lemma ParcelsMonthly(user: nat, q: NewTransaction, date: Date, anchor: nat, now: Timestamp, i: nat, j: nat)
    requires q.totalParcels > 1
    requires i < j < q.totalParcels
    ensures DateLt(Parcels(user, q, date, anchor, now)[i].date, Parcels(user, q, date, anchor, now)[j].date)
  {
    ParcelAt(user, q, date, anchor, now, i);
    ParcelAt(user, q, date, anchor, now, j);
    AddMonthsIncreasing(date, i, j);
  }

  /**
   * The plain branch writes one row with `is_parceled = 0`, `total_parcels = 1`,
   * `current_parcel = 1` (also for `is_parceled` with N <= 1); a fixed one adds
   * twelve rows, the k-th dated k months later with the same description,
   * amount, type and category, linked to the first, `is_fixed = 1` and unpaid
   * whatever the request said.
   */
  lemma PlainRows(user: nat, q: NewTransaction, firstId: nat, now: Timestamp)
    requires !MissingField(q) && !FixedAndParceled(q) && !SplitsIntoParcels(q)
    ensures var rows := PostRows(user, q, firstId, now);
      && !rows[0].isParceled && rows[0].totalParcels == 1 && rows[0].currentParcel == Some(1)
      && rows[0].paid == q.paid && rows[0].parentId.None? && rows[0].amount == q.amount
      && (q.isFixed ==> forall k :: 1 <= k <= 12 ==>
            && rows[k].description == q.description && rows[k].amount == q.amount
            && rows[k].kind == q.kind && rows[k].category == q.category
            && rows[k].parentId == Some(firstId) && rows[k].isFixed && !rows[k].isParceled
            && rows[k].paid == Some(false) && rows[k].paidAt.None?
            && MonthIndex(rows[k].date) == MonthIndex(q.date.value) + k)
  {
    var rows := PostRows(user, q, firstId, now);
    if q.isFixed {
      forall k | 1 <= k <= 12
        ensures rows[k] == FollowUp(user, firstId, q.description, q.amount, q.kind, q.category, q.date.value, k, firstId + k, now)
      {
        FollowUpAt(user, firstId, q.description, q.amount, q.kind, q.category, q.date.value, now, k - 1);
      }
    }
  }

  // ------------------------------------------------------------------ GET

  /**
   * The GET filter: the caller's rows with `is_parceled` 0 or NULL, of one
   * month when both month and year are given, of one type when one is given.
   */
  predicate Listed(r: Row, user: nat, month: string, year: string, kind: string) {
    && r.userId == user
    && (month == "" || year == "" || InMonth(r.date, month, year))
    && (kind == "" || r.kind == kind)
    && !r.isParceled
  }

  /** `ORDER BY t.date DESC, t.created_at DESC` */
  predicate NewestFirst(a: Row, b: Row) {
    DateLt(b.date, a.date) || (a.date == b.date && a.createdAt >= b.createdAt)
  }

  lemma NewestFirstTotalPreorder()
    ensures TotalPreorder(NewestFirst)
  {
    DateLeIsTotalOrder();
  }

  function ListRows(rows: seq<Row>, user: nat, month: string, year: string, kind: string): (r: seq<Row>)
    ensures forall x :: multiset(r)[x] == if Listed(x, user, month, year, kind) then multiset(rows)[x] else 0
    ensures SortedBy(r, NewestFirst)
  {
    var keep := (x: Row) => Listed(x, user, month, year, kind);
    forall x ensures multiset(Filter(rows, keep))[x] == if keep(x) then multiset(rows)[x] else 0 {
      FilterMultiplicity(rows, keep, x);
    }
    NewestFirstTotalPreorder();
    SortBySorted(Filter(rows, keep), NewestFirst);
    SortBy(Filter(rows, keep), NewestFirst)
  }

  /** The GET handler: 401 without a user, else the listing with each row's category colour. */
  function Get(user: Option<nat>, rows: seq<Row>, categories: seq<Category>, month: string, year: string, kind: string): (r: Reply<seq<ColoredRow>>)
    ensures user.None? <==> r == Unauthorized(NotAuthenticated)
    ensures r.Ok? ==> r.body == JoinColors(ListRows(rows, user.value, month, year, kind), categories)
  {
    if user.None? then Unauthorized(NotAuthenticated) else Ok(JoinColors(ListRows(rows, user.value, month, year, kind), categories))
  }

  /** The month parameter may be sent with or without its leading zero. */
  lemma ListedMonthLeadingZero(r: Row, user: nat, digit: char, year: string, kind: string)
    ensures Listed(r, user, [digit], year, kind) <==> Listed(r, user, ['0', digit], year, kind)
  {
    InMonthLeadingZero(r.date, digit, year);
  }

  /** Month and year restrict the listing only together: one without the other lists every month. */
  lemma ListedNeedsMonthAndYear(r: Row, user: nat, month: string, year: string, kind: string)
    requires month == "" || year == ""
    ensures Listed(r, user, month, year, kind) <==> Listed(r, user, "", "", kind)
  {
  }

  /**
   * After a parceled POST the listing shows the anchor (when month and type
   * match) and never one of its parcels.
   */
  lemma ListingShowsAnchorNotParcels(user: nat, q: NewTransaction, firstId: nat, now: Timestamp, month: string, year: string, kind: string)
    requires !MissingField(q) && !FixedAndParceled(q) && SplitsIntoParcels(q)
    ensures var rows := PostRows(user, q, firstId, now);
      && (Listed(rows[0], user, month, year, kind) <==>
            (month == "" || year == "" || InMonth(q.date.value, month, year)) && (kind == "" || q.kind == kind))
      && forall i :: 1 <= i < |rows| ==> !Listed(rows[i], user, month, year, kind)
  {
    var rows := PostRows(user, q, firstId, now);
    forall i | 1 <= i < |rows| ensures rows[i].isParceled {
      ParcelAt(user, q, q.date.value, firstId, now, i - 1);
    }
  }

  /** Another user's rows never appear in the listing. */
  lemma ListingOnlyOwnRows(rows: seq<Row>, user: nat, month: string, year: string, kind: string, x: Row)
    requires x.userId != user
    ensures x !in ListRows(rows, user, month, year, kind)
  {
    assert multiset(ListRows(rows, user, month, year, kind))[x] == 0;
  }
}
