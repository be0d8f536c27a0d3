/**
 * `/api/categories`: the `categories` table, the GET that answers either the
 * month's expense breakdown by category or the caller's categories by name,
 * and the POST that creates one category.
 */
module CategoriesRoute {
  import opened Wrappers
  import opened Text
  import opened Calendar
  import opened Listing
  import opened Http
  import opened Ledger
  import opened Aggregates

  /** One row of `categories`; `kind` is the `type` column. */
  datatype Category = Category(id: nat, userId: nat, name: string, kind: string, color: string, createdAt: Timestamp)

  predicate CategoryIdBefore(a: Category, b: Category) {
    a.id < b.id
  }

  /** Two categories are different entries of the uniqueness constraint: another owner or another name. */
  predicate DifferentKey(a: Category, b: Category) {
    a.userId != b.userId || a.name != b.name
  }

  /** Ids grow with insertion order and stay below the next id; an owner has each name at most once. */
  predicate CategoriesConsistent(s: seq<Category>, nextId: nat) {
    && SortedBy(s, CategoryIdBefore)
    && (forall i :: 0 <= i < |s| ==> s[i].id < nextId)
    && SortedBy(s, DifferentKey)
  }

  /** `user_id = ? AND name = ?` names an existing row. */
  predicate HasName(s: seq<Category>, user: nat, name: string) {
    exists i :: 0 <= i < |s| && s[i].userId == user && s[i].name == name
  }

  /** `DELETE FROM categories WHERE user_id = ?`. */
  function CategoriesWithoutOwner(s: seq<Category>, owner: nat): (r: seq<Category>)
    ensures forall x :: multiset(r)[x] == if x.userId != owner then multiset(s)[x] else 0
  {
    var keep := (x: Category) => x.userId != owner;
    forall x ensures multiset(Filter(s, keep))[x] == if keep(x) then multiset(s)[x] else 0 {
      FilterMultiplicity(s, keep, x);
    }
    Filter(s, keep)
  }

  class CategoryTable {
    var rows: seq<Category>
    var nextId: nat

    ghost predicate Valid()
      reads this
    {
      CategoriesConsistent(rows, nextId)
    }

    constructor ()
      ensures Valid() && rows == [] && nextId == 1
    {
      rows := [];
      nextId := 1;
    }

    /** `INSERT INTO categories`, refused (`SQLITE_CONSTRAINT_UNIQUE`) when the owner already has the name. */
    method Insert(user: nat, name: string, kind: string, color: string, now: Timestamp) returns (id: Option<nat>)
      requires Valid()
      modifies this
      ensures Valid()
      ensures id.None? <==> HasName(old(rows), user, name)
      ensures id.Some? ==> id.value == old(nextId) && nextId == old(nextId) + 1
                           && rows == old(rows) + [Category(id.value, user, name, kind, color, now)]
      ensures id.None? ==> rows == old(rows) && nextId == old(nextId)
    {
      var i := 0;
      while i < |rows|
        invariant 0 <= i <= |rows|
        invariant forall j :: 0 <= j < i ==> !(rows[j].userId == user && rows[j].name == name)
      {
        if rows[i].userId == user && rows[i].name == name {
          return None;
        }
        i := i + 1;
      }
      var r := Category(nextId, user, name, kind, color, now);
      forall a, b | 0 <= a < b < |rows + [r]| ensures DifferentKey((rows + [r])[a], (rows + [r])[b]) {
        if b < |rows| {
          assert DifferentKey(rows[a], rows[b]);
        }
      }
      rows := rows + [r];
      id := Some(nextId);
      nextId := nextId + 1;
    }

    /** `DELETE FROM categories WHERE user_id = ?`. */
    method DeleteOwner(owner: nat)
      requires Valid()
      modifies this
      ensures Valid()
      ensures rows == CategoriesWithoutOwner(old(rows), owner) && nextId == old(nextId)
    {
      var keep := (x: Category) => x.userId != owner;
      FilterSortedBy(rows, keep, CategoryIdBefore);
      FilterSortedBy(rows, keep, DifferentKey);
      rows := CategoriesWithoutOwner(rows, owner);
    }
  }

  // ------------------------------------------------------------------ POST

  /** The JSON body of a POST; an absent field is "". */
  datatype NewCategory = NewCategory(name: string, kind: string, color: string)

  const DefaultColor := "#3b82f6"
  const MissingNameOrTypeError := "Nome e tipo são obrigatórios"
  const DuplicateError := "Categoria já existe"

  /** `color || '#3b82f6'` */
  function StoredColor(color: string): (r: string)
    ensures r != ""
    ensures color != "" ==> r == color
  {
    if color == "" then DefaultColor else color
  }

  /** What a POST answers: 401, 400 without name or type, 400 for a name the caller already has, else the new id. */
  function PostReply(user: Option<nat>, q: NewCategory, rows: seq<Category>, nextId: nat): Reply<nat> {
    if user.None? then Unauthorized(NotAuthenticated)
    else if q.name == "" || q.kind == "" then BadRequest(MissingNameOrTypeError)
    else if HasName(rows, user.value, q.name) then BadRequest(DuplicateError)
    else Ok(nextId)
  }

  /** The POST handler. */
  method Post(table: CategoryTable, user: Option<nat>, q: NewCategory, now: Timestamp) returns (reply: Reply<nat>)
    requires table.Valid()
    modifies table
    ensures table.Valid()
    ensures reply == PostReply(user, q, old(table.rows), old(table.nextId))
    ensures reply.Ok? ==> table.rows == old(table.rows) + [Category(reply.body, user.value, q.name, q.kind, StoredColor(q.color), now)]
    ensures !reply.Ok? ==> table.rows == old(table.rows)
  {
    if user.None? {
      return Unauthorized(NotAuthenticated);
    }
    if q.name == "" || q.kind == "" {
      return BadRequest(MissingNameOrTypeError);
    }
    var id := table.Insert(user.value, q.name, q.kind, StoredColor(q.color), now);
    if id.None? {
      return BadRequest(DuplicateError);
    }
    return Ok(id.value);
  }

  /** An accepted POST leaves the caller with exactly one category of that name. */
  lemma PostNameUnique(s: seq<Category>, nextId: nat, user: nat, q: NewCategory, now: Timestamp)
    requires CategoriesConsistent(s, nextId)
    requires PostReply(Some(user), q, s, nextId).Ok?
    ensures var t := s + [Category(nextId, user, q.name, q.kind, StoredColor(q.color), now)];
      forall i :: 0 <= i < |t| && t[i].userId == user && t[i].name == q.name ==> i == |s|
  {
  }

  // ------------------------------------------------------- GET, plain list

  predicate CategoryListed(c: Category, user: nat, kind: string) {
    c.userId == user && (kind == "" || c.kind == kind)
  }

  /** `ORDER BY name ASC` */
  predicate NameOrder(a: Category, b: Category) {
    TextLe(a.name, b.name)
  }

  lemma NameOrderTotalPreorder()
    ensures TotalPreorder(NameOrder)
  {
    forall a: Category, b: Category ensures NameOrder(a, b) || NameOrder(b, a) {
      TextLeTotal(a.name, b.name);
    }
    forall a: Category, b: Category, c: Category | NameOrder(a, b) && NameOrder(b, c) ensures NameOrder(a, c) {
      TextLeTransitive(a.name, b.name, c.name);
    }
  }

  /** `SELECT * FROM categories WHERE user_id = ? [AND type = ?] ORDER BY name ASC` */
  function ListCategories(s: seq<Category>, user: nat, kind: string): (r: seq<Category>)
    ensures forall x :: multiset(r)[x] == if CategoryListed(x, user, kind) then multiset(s)[x] else 0
    ensures SortedBy(r, NameOrder)
  {
    var keep := (x: Category) => CategoryListed(x, user, kind);
    forall x ensures multiset(Filter(s, keep))[x] == if keep(x) then multiset(s)[x] else 0 {
      FilterMultiplicity(s, keep, x);
    }
    NameOrderTotalPreorder();
    SortBySorted(Filter(s, keep), NameOrder);
    SortBy(Filter(s, keep), NameOrder)
  }

  // ------------------------------------------------------ GET, breakdown

  /** One row of the breakdown: category, its colour (NULL without a matching category), total, percentage. */
  datatype Spending = Spending(category: string, color: Option<string>, total: real, percentage: Option<real>)

  /** `t.user_id = ? AND t.type = 'expense' AND` the month `AND (t.is_parceled = 0 OR t.is_parceled IS NULL)` */
  predicate BreakdownRow(r: Row, user: nat, month: string, year: string) {
    OfMonth(r, user, month, year) && r.kind == "expense" && !r.isParceled
  }

  function BreakdownRows(rows: seq<Row>, user: nat, month: string, year: string): seq<Row> {
    Filter(rows, (x: Row) => BreakdownRow(x, user, month, year))
  }

  /** The expense rows of the month the breakdown leaves out: the parcels. */
  function ParcelExpenseRows(rows: seq<Row>, user: nat, month: string, year: string): seq<Row> {
    Filter(rows, (x: Row) => OfMonth(x, user, month, year) && x.kind == "expense" && x.isParceled)
  }

  /** `LEFT JOIN categories c ON t.category = c.name AND c.user_id = t.user_id`: the colour, if any. */
  function ColorOf(categories: seq<Category>, user: nat, name: string): (r: Option<string>)
    ensures r.Some? <==> HasName(categories, user, name)
    ensures r.Some? ==> exists i :: 0 <= i < |categories| && categories[i].userId == user && categories[i].name == name
                                    && categories[i].color == r.value
  {
    if |categories| == 0 then None
    else if categories[0].userId == user && categories[0].name == name then Some(categories[0].color)
    else
      var r := ColorOf(categories[1..], user, name);
      assert r.Some? ==> exists i :: 0 <= i < |categories| && categories[i].userId == user && categories[i].name == name
                                     && categories[i].color == r.value by {
        if r.Some? {
          var i :| 0 <= i < |categories[1..]| && categories[1..][i].userId == user && categories[1..][i].name == name
                   && categories[1..][i].color == r.value;
          assert categories[i + 1] == categories[1..][i];
        }
      }
      assert HasName(categories, user, name) <==> HasName(categories[1..], user, name) by {
        if HasName(categories, user, name) {
          var i :| 0 <= i < |categories| && categories[i].userId == user && categories[i].name == name;
          assert categories[1..][i - 1] == categories[i];
        }
        if HasName(categories[1..], user, name) {
          var i :| 0 <= i < |categories[1..]| && categories[1..][i].userId == user && categories[1..][i].name == name;
          assert categories[i + 1] == categories[1..][i];
        }
      }
      r
  }

  /** A listed transaction with the `category_color` column the listings join to it. */
  datatype ColoredRow = ColoredRow(row: Row, categoryColor: Option<string>)

  /**
   * `LEFT JOIN categories c ON t.category = c.name AND c.user_id = t.user_id`
   * on a listing: every row is kept, in place, with the colour of its owner's
   * category of that name, or NULL when the owner has none (one match at
   * most, since an owner's category names are unique).
   */
  function JoinColors(rows: seq<Row>, categories: seq<Category>): (r: seq<ColoredRow>)
    ensures |r| == |rows|
    ensures forall i :: 0 <= i < |rows| ==> r[i].row == rows[i]
    ensures forall i :: 0 <= i < |rows| ==> (r[i].categoryColor.Some? <==> HasName(categories, rows[i].userId, rows[i].category))
    ensures forall i :: 0 <= i < |rows| && r[i].categoryColor.Some? ==>
      exists k :: 0 <= k < |categories| && categories[k].userId == rows[i].userId && categories[k].name == rows[i].category
                  && categories[k].color == r[i].categoryColor.value
  {
    Map(rows, (x: Row) => ColoredRow(x, ColorOf(categories, x.userId, x.category)))
  }

  /** The percentage subquery's denominator: every expense of the month, parcels included. */
  function Denominator(rows: seq<Row>, user: nat, month: string, year: string): real {
    MonthTotal(rows, user, month, year, "expense")
  }

  /** `SUM(t.amount) * 100.0 / denominator`; SQLite answers NULL for a division by zero. */
  function Percentage(total: real, denominator: real): (r: Option<real>)
    ensures r.None? <==> denominator == 0.0
    ensures r.Some? ==> r.value * denominator == total * 100.0
  {
    if denominator == 0.0 then None else Some(total * 100.0 / denominator)
  }

  function SpendingOf(rows: seq<Row>, categories: seq<Category>, user: nat, denominator: real, c: string): Spending {
    var total := CategoryTotal(rows, c);
    Spending(c, ColorOf(categories, user, c), total, Percentage(total, denominator))
  }

  /** `ORDER BY total DESC` */
  predicate LargerSpending(a: Spending, b: Spending) {
    a.total >= b.total
  }

  lemma LargerSpendingTotalPreorder()
    ensures TotalPreorder(LargerSpending)
  {
  }

  function SpendingTotal(s: Spending): real {
    s.total
  }

  /** The breakdown: one entry per category of the month's non-parceled expenses, largest total first. */
  function Breakdown(rows: seq<Row>, categories: seq<Category>, user: nat, month: string, year: string): (r: seq<Spending>)
    ensures SortedBy(r, LargerSpending)
  {
    var b := BreakdownRows(rows, user, month, year);
    var d := Denominator(rows, user, month, year);
    var entries := Map(Categories(b), (c: string) => SpendingOf(b, categories, user, d, c));
    LargerSpendingTotalPreorder();
    SortBySorted(entries, LargerSpending);
    SortBy(entries, LargerSpending)
  }

  /** Summing the entries of a list of categories is summing their totals. */
  lemma {:induction false} EntriesSum(b: seq<Row>, categories: seq<Category>, user: nat, d: real, cs: seq<string>)
    ensures SumBy(Map(cs, (c: string) => SpendingOf(b, categories, user, d, c)), SpendingTotal) == SumOverCategories(b, cs)
  {
    if |cs| > 0 {
      var f := (c: string) => SpendingOf(b, categories, user, d, c);
      assert Map(cs, f)[1..] == Map(cs[1..], f);
      EntriesSum(b, categories, user, d, cs[1..]);
    }
  }

  /** The breakdown's totals add up to the month's non-parceled expenses. */
  lemma BreakdownSum(rows: seq<Row>, categories: seq<Category>, user: nat, month: string, year: string)
    ensures SumBy(Breakdown(rows, categories, user, month, year), SpendingTotal) == SumBy(BreakdownRows(rows, user, month, year), Amount)
  {
    var b := BreakdownRows(rows, user, month, year);
    var d := Denominator(rows, user, month, year);
    var entries := Map(Categories(b), (c: string) => SpendingOf(b, categories, user, d, c));
    SortBySum(entries, LargerSpending, SpendingTotal);
    EntriesSum(b, categories, user, d, Categories(b));
    GroupTotalsSum(b);
  }

  /** The denominator is the breakdown's rows plus the parcels the breakdown leaves out. */
  lemma DenominatorSplits(rows: seq<Row>, user: nat, month: string, year: string)
    ensures Denominator(rows, user, month, year)
            == SumBy(BreakdownRows(rows, user, month, year), Amount) + SumBy(ParcelExpenseRows(rows, user, month, year), Amount)
  {
    SumByFilterSplit(rows, (x: Row) => OfMonth(x, user, month, year) && x.kind == "expense",
                     (x: Row) => BreakdownRow(x, user, month, year),
                     (x: Row) => OfMonth(x, user, month, year) && x.kind == "expense" && x.isParceled, Amount);
  }

  /**
   * When the month's parcel expenses are not negative, the breakdown's totals
   * add up to at most the denominator, so the percentages add up to at most 100.
   */
  lemma BreakdownWithinDenominator(rows: seq<Row>, categories: seq<Category>, user: nat, month: string, year: string)
    requires forall i :: 0 <= i < |rows| && rows[i].isParceled ==> rows[i].amount >= 0.0
    ensures SumBy(Breakdown(rows, categories, user, month, year), SpendingTotal) <= Denominator(rows, user, month, year)
  {
    BreakdownSum(rows, categories, user, month, year);
    DenominatorSplits(rows, user, month, year);
    ParcelExpensesNonNegative(rows, user, month, year);
  }

  lemma ParcelExpensesNonNegative(rows: seq<Row>, user: nat, month: string, year: string)
    requires forall i :: 0 <= i < |rows| && rows[i].isParceled ==> rows[i].amount >= 0.0
    ensures SumBy(ParcelExpenseRows(rows, user, month, year), Amount) >= 0.0
  {
    var p := ParcelExpenseRows(rows, user, month, year);
    forall i | 0 <= i < |p| ensures Amount(p[i]) >= 0.0 {
      assert p[i] in rows;
    }
    SumByNonNegative(p, Amount);
  }

  /** Each breakdown entry is one category of the month's non-parceled expenses, with its total, colour and share. */
  lemma BreakdownEntries(rows: seq<Row>, categories: seq<Category>, user: nat, month: string, year: string, e: Spending)
    requires e in Breakdown(rows, categories, user, month, year)
    ensures var b := BreakdownRows(rows, user, month, year);
      && e.category in Categories(b)
      && e.total == CategoryTotal(b, e.category)
      && e.color == ColorOf(categories, user, e.category)
      && e.percentage == Percentage(e.total, Denominator(rows, user, month, year))
  {
    var b := BreakdownRows(rows, user, month, year);
    var d := Denominator(rows, user, month, year);
    var entries := Map(Categories(b), (c: string) => SpendingOf(b, categories, user, d, c));
    var sorted := SortBy(entries, LargerSpending);
    assert sorted == Breakdown(rows, categories, user, month, year);
    assert e in multiset(sorted);
    assert e in entries;
    var i :| 0 <= i < |entries| && entries[i] == e;
    assert e == SpendingOf(b, categories, user, d, Categories(b)[i]);
  }

  /**
   * The breakdown has one entry per category of the month's non-parceled
   * expenses: every such category has an entry, and no category has two.
   */
  lemma BreakdownCovers(rows: seq<Row>, categories: seq<Category>, user: nat, month: string, year: string)
    ensures var b := BreakdownRows(rows, user, month, year);
      var r := Breakdown(rows, categories, user, month, year);
      && (forall c :: c in Categories(b) <==> exists e :: e in r && e.category == c)
      && (forall i, j :: 0 <= i < j < |r| ==> r[i].category != r[j].category)
  {
    var b := BreakdownRows(rows, user, month, year);
    var d := Denominator(rows, user, month, year);
    var cs := Categories(b);
    var entries := Map(cs, (c: string) => SpendingOf(b, categories, user, d, c));
    assert Breakdown(rows, categories, user, month, year) == SortBy(entries, LargerSpending);
    KeyedEntries(cs, entries, SortBy(entries, LargerSpending));
  }

  /** A reordering of one entry per distinct category still has each category exactly once. */
  lemma KeyedEntries(cs: seq<string>, entries: seq<Spending>, r: seq<Spending>)
    requires NoDuplicates(cs)
    requires |entries| == |cs| && forall k :: 0 <= k < |cs| ==> entries[k].category == cs[k]
    requires multiset(r) == multiset(entries)
    ensures forall c :: c in cs <==> exists e :: e in r && e.category == c
    ensures forall i, j :: 0 <= i < j < |r| ==> r[i].category != r[j].category
  {
    assert NoDuplicates(entries) by {
      forall i, j | 0 <= i < j < |entries| ensures entries[i] != entries[j] {
        assert entries[i].category == cs[i] && entries[j].category == cs[j];
      }
    }
    NoDuplicatesPermutation(entries, r);
    forall i, j | 0 <= i < j < |r| ensures r[i].category != r[j].category {
      assert r[i] in multiset(entries) && r[j] in multiset(entries);
      var k :| 0 <= k < |entries| && entries[k] == r[i];
      var l :| 0 <= l < |entries| && entries[l] == r[j];
      assert r[i].category == cs[k] && r[j].category == cs[l];
    }
    forall c ensures c in cs <==> exists e :: e in r && e.category == c {
      if c in cs {
        var k :| 0 <= k < |cs| && cs[k] == c;
        assert entries[k] in multiset(r);
        assert entries[k].category == c;
      }
      if e :| e in r && e.category == c {
        assert e in multiset(entries);
        var k :| 0 <= k < |entries| && entries[k] == e;
        assert cs[k] == c;
      }
    }
  }

  // ------------------------------------------------------------------ GET

  datatype CategoriesBody = ByCategory(spending: seq<Spending>) | Plain(categories: seq<Category>)

  /** The GET handler: the breakdown when month and year are both given, the plain list otherwise. */
  function Get(user: Option<nat>, rows: seq<Row>, categories: seq<Category>, kind: string, month: string, year: string): (r: Reply<CategoriesBody>)
    ensures user.None? <==> r == Unauthorized(NotAuthenticated)
    ensures r.Ok? && month != "" && year != "" ==> r.body == ByCategory(Breakdown(rows, categories, user.value, month, year))
    ensures r.Ok? && (month == "" || year == "") ==> r.body == Plain(ListCategories(categories, user.value, kind))
  {
    if user.None? then Unauthorized(NotAuthenticated)
    else if month != "" && year != "" then Ok(ByCategory(Breakdown(rows, categories, user.value, month, year)))
    else Ok(Plain(ListCategories(categories, user.value, kind)))
  }
}
