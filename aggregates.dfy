/**
 * The aggregate reads of the summary and category routes: the rows of one
 * owner, month and type (`WHERE user_id = ? AND strftime(...) = ? AND type = ?`),
 * their `SUM(amount)` and `COUNT(*)`, and `GROUP BY category`.
 */
module Aggregates {
  import opened Calendar
  import opened Listing
  import opened Ledger

  /** The caller's row dated in the requested month (month zero-padded, as the routes send it). */
  predicate OfMonth(r: Row, user: nat, month: string, year: string) {
    r.userId == user && InMonth(r.date, month, year)
  }

  /** The caller's rows of one type in one month, whatever their `is_parceled`. */
  function MonthRows(rows: seq<Row>, user: nat, month: string, year: string, kind: string): (r: seq<Row>)
    ensures forall x :: x in r <==> x in rows && OfMonth(x, user, month, year) && x.kind == kind
  {
    Filter(rows, (x: Row) => OfMonth(x, user, month, year) && x.kind == kind)
  }

  /** `SUM(amount)` of those rows, 0 when there are none. */
  function MonthTotal(rows: seq<Row>, user: nat, month: string, year: string, kind: string): real {
    SumBy(MonthRows(rows, user, month, year, kind), Amount)
  }

  /** `COUNT(*)` of those rows. */
  function MonthCount(rows: seq<Row>, user: nat, month: string, year: string, kind: string): nat {
    |MonthRows(rows, user, month, year, kind)|
  }

  /** Totals and counts over a table that grew are the old ones plus those of the new rows. */
  lemma MonthTotalAppend(a: seq<Row>, b: seq<Row>, user: nat, month: string, year: string, kind: string)
    ensures MonthTotal(a + b, user, month, year, kind) == MonthTotal(a, user, month, year, kind) + MonthTotal(b, user, month, year, kind)
    ensures MonthCount(a + b, user, month, year, kind) == MonthCount(a, user, month, year, kind) + MonthCount(b, user, month, year, kind)
  {
    var p := (x: Row) => OfMonth(x, user, month, year) && x.kind == kind;
    FilterAppend(a, b, p);
    SumByAppend(Filter(a, p), Filter(b, p), Amount);
  }

  /** Rows none of which is of the month and type add nothing. */
  lemma MonthTotalNone(rows: seq<Row>, user: nat, month: string, year: string, kind: string)
    requires forall i :: 0 <= i < |rows| ==> !(OfMonth(rows[i], user, month, year) && rows[i].kind == kind)
    ensures MonthRows(rows, user, month, year, kind) == []
    ensures MonthTotal(rows, user, month, year, kind) == 0.0
  {
    FilterNone(rows, (x: Row) => OfMonth(x, user, month, year) && x.kind == kind);
  }

  // ------------------------------------------------------------- grouping

  function CategoryOf(r: Row): string {
    r.category
  }

  /** The rows of one category (one `GROUP BY category` group). */
  function RowsOfCategory(rows: seq<Row>, c: string): (r: seq<Row>)
    ensures forall x :: x in r <==> x in rows && x.category == c
  {
    Filter(rows, (x: Row) => x.category == c)
  }

  /** `SUM(amount)` of one group. */
  function CategoryTotal(rows: seq<Row>, c: string): real {
    SumBy(RowsOfCategory(rows, c), Amount)
  }

  /** The group keys: every category that occurs, once each, in order of first occurrence. */
  function Categories(rows: seq<Row>): (r: seq<string>)
    ensures NoDuplicates(r)
    ensures forall c :: c in r <==> exists i :: 0 <= i < |rows| && rows[i].category == c
  {
    var cs := Map(rows, CategoryOf);
    assert forall c :: c in cs <==> exists i :: 0 <= i < |rows| && rows[i].category == c by {
      forall c | c in cs ensures exists i :: 0 <= i < |rows| && rows[i].category == c {
        var i :| 0 <= i < |cs| && cs[i] == c;
        assert rows[i].category == c;
      }
      forall c | exists i :: 0 <= i < |rows| && rows[i].category == c ensures c in cs {
        var i :| 0 <= i < |rows| && rows[i].category == c;
        assert cs[i] == c;
      }
    }
    Distinct(cs)
  }

  /** The sum, over the categories `cs`, of each category's total. */
  function SumOverCategories(rows: seq<Row>, cs: seq<string>): real {
    if |cs| == 0 then 0.0 else CategoryTotal(rows, cs[0]) + SumOverCategories(rows, cs[1..])
  }

  /** A row added to the table adds its amount to its own category's total only. */
  lemma CategoryTotalSnoc(rows: seq<Row>, x: Row, c: string)
    ensures CategoryTotal(rows + [x], c) == CategoryTotal(rows, c) + if x.category == c then x.amount else 0.0
  {
    var p := (y: Row) => y.category == c;
    FilterAppend(rows, [x], p);
    SumByAppend(Filter(rows, p), Filter([x], p), Amount);
    assert [x][1..] == [];
  }

  /** A category no row has totals 0. */
  lemma CategoryTotalAbsent(rows: seq<Row>, c: string)
    requires forall i :: 0 <= i < |rows| ==> rows[i].category != c
    ensures CategoryTotal(rows, c) == 0.0
  {
    FilterNone(rows, (x: Row) => x.category == c);
  }

  /** Over distinct categories, a new row is counted once if its category is among them, else not at all. */
  lemma {:induction false} SumOverCategoriesSnoc(rows: seq<Row>, x: Row, cs: seq<string>)
    requires NoDuplicates(cs)
    ensures SumOverCategories(rows + [x], cs) == SumOverCategories(rows, cs) + if x.category in cs then x.amount else 0.0
  {
    if |cs| > 0 {
      CategoryTotalSnoc(rows, x, cs[0]);
      assert NoDuplicates(cs[1..]) by {
        forall i, j | 0 <= i < j < |cs[1..]| ensures cs[1..][i] != cs[1..][j] {
          assert cs[i + 1] != cs[j + 1];
        }
      }
      SumOverCategoriesSnoc(rows, x, cs[1..]);
      if x.category == cs[0] {
        forall i | 0 <= i < |cs[1..]| ensures cs[1..][i] != x.category {
          assert cs[0] != cs[i + 1];
        }
      }
      assert x.category in cs <==> x.category == cs[0] || x.category in cs[1..];
    }
  }

  /** Adding one more category at the end adds its total. */
  lemma {:induction false} SumOverCategoriesAppend(rows: seq<Row>, cs: seq<string>, c: string)
    ensures SumOverCategories(rows, cs + [c]) == SumOverCategories(rows, cs) + CategoryTotal(rows, c)
  {
    if |cs| > 0 {
      assert (cs + [c])[1..] == cs[1..] + [c];
      SumOverCategoriesAppend(rows, cs[1..], c);
    } else {
      assert (cs + [c])[1..] == [];
    }
  }

  /** `GROUP BY category` loses nothing: the group totals add up to the total of all rows. */
  lemma {:induction false} GroupTotalsSum(rows: seq<Row>)
    ensures SumOverCategories(rows, Categories(rows)) == SumBy(rows, Amount)
  {
    if |rows| > 0 {
      var p := rows[..|rows| - 1];
      var x := rows[|rows| - 1];
      assert rows == p + [x];
      GroupTotalsSum(p);
      var d := Categories(p);
      assert Map(rows, CategoryOf) == Map(p, CategoryOf) + [x.category];
      assert Map(rows, CategoryOf)[..|rows| - 1] == Map(p, CategoryOf);
      SumByAppend(p, [x], Amount);
      assert SumBy([x], Amount) == x.amount by {
        assert [x][1..] == [];
      }
      SumOverCategoriesSnoc(p, x, d);
      if x.category !in d {
        assert Categories(rows) == d + [x.category];
        SumOverCategoriesAppend(rows, d, x.category);
        CategoryTotalSnoc(p, x, x.category);
        CategoryTotalAbsent(p, x.category);
      } else {
        assert Categories(rows) == d;
      }
    }
  }
}
