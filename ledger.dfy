/**
 * The `transactions` table: one row per income or expense, with the columns
 * the route handlers read and write, held in memory as a sequence in insertion
 * order together with the next AUTOINCREMENT id.
 */
module Ledger {
  import opened Wrappers
  import opened Calendar
  import opened Listing

  /** `CURRENT_TIMESTAMP` or `new Date().toISOString()`: a moment, of which only the order is used. */
  type Timestamp = int

  /**
   * One row. `kind` is the `type` column ('income' or 'expense'); a NULL
   * `is_parceled` reads as false; `paid` is NULL when an insert passed no value.
   */
  datatype Row = Row(
    id: nat,
    userId: nat,
    description: string,
    amount: real,
    kind: string,
    category: string,
    date: Date,
    isParceled: bool,
    totalParcels: int,
    currentParcel: Option<int>,
    parentId: Option<nat>,
    isFixed: bool,
    paid: Option<bool>,
    paidAt: Option<Timestamp>,
    createdAt: Timestamp)

  /** The `amount` column, as a function to add up (`SUM(amount)`). */
  function Amount(r: Row): real {
    r.amount
  }

  predicate IdBefore(a: Row, b: Row) {
    a.id < b.id
  }

  predicate IdsBelow(s: seq<Row>, bound: nat) {
    forall i :: 0 <= i < |s| ==> s[i].id < bound
  }

  /** Some row of `s` has this id and this owner. */
  predicate HasRow(s: seq<Row>, id: nat, owner: nat) {
    exists j :: 0 <= j < |s| && s[j].id == id && s[j].userId == owner
  }

  /** Every `parent_transaction_id` names a row of the table that has the same owner. */
  predicate LinksResolve(s: seq<Row>) {
    forall i :: 0 <= i < |s| && s[i].parentId.Some? ==> HasRow(s, s[i].parentId.value, s[i].userId)
  }

  /** Ids grow with insertion order and stay below the next id; parent links resolve. */
  predicate Consistent(s: seq<Row>, nextId: nat) {
    SortedBy(s, IdBefore) && IdsBelow(s, nextId) && LinksResolve(s)
  }

  /** Ids are unique in a consistent table: a row is found by its id alone. */
  lemma IdsUnique(s: seq<Row>, nextId: nat, i: nat, j: nat)
    requires Consistent(s, nextId)
    requires i < |s| && j < |s| && i != j
    ensures s[i].id != s[j].id
  {
    if i < j {
      assert IdBefore(s[i], s[j]);
    } else if j < i {
      assert IdBefore(s[j], s[i]);
    }
  }

  /** Appending a row with the next id whose parent, if any, is in the table keeps it consistent. */
  lemma {:induction false} AppendConsistent(s: seq<Row>, nextId: nat, r: Row)
    requires Consistent(s, nextId)
    requires r.id >= nextId
    requires r.parentId.Some? ==> HasRow(s, r.parentId.value, r.userId)
    ensures Consistent(s + [r], r.id + 1)
  {
    var t := s + [r];
    forall i, j | 0 <= i < j < |t| ensures IdBefore(t[i], t[j]) {
      if j < |s| {
        assert IdBefore(s[i], s[j]);
      } else {
        assert t[i].id < nextId;
      }
    }
    forall i | 0 <= i < |t| && t[i].parentId.Some? ensures HasRow(t, t[i].parentId.value, t[i].userId) {
      var p := t[i].parentId.value;
      if i < |s| {
        assert HasRow(s, p, s[i].userId);
      }
      var j :| 0 <= j < |s| && s[j].id == p && s[j].userId == t[i].userId;
      assert t[j] == s[j];
    }
  }

  // ------------------------------------------------------------- deletion

  /** `DELETE FROM transactions WHERE user_id = ?`: the rows of every other owner, in order. */
  function WithoutOwner(s: seq<Row>, owner: nat): (r: seq<Row>)
    ensures forall x :: x in r <==> x in s && x.userId != owner
    ensures forall x :: multiset(r)[x] == if x.userId != owner then multiset(s)[x] else 0
  {
    var keep := (x: Row) => x.userId != owner;
    forall x ensures multiset(Filter(s, keep))[x] == if x.userId != owner then multiset(s)[x] else 0 {
      FilterMultiplicity(s, keep, x);
    }
    Filter(s, keep)
  }

  /** Removing one owner's rows keeps the table consistent: no other owner's row loses its parent. */
  lemma WithoutOwnerConsistent(s: seq<Row>, nextId: nat, owner: nat)
    requires Consistent(s, nextId)
    ensures Consistent(WithoutOwner(s, owner), nextId)
  {
    var keep := (x: Row) => x.userId != owner;
    FilterSortedBy(s, keep, IdBefore);
    var t := WithoutOwner(s, owner);
    forall i | 0 <= i < |t| && t[i].parentId.Some? ensures HasRow(t, t[i].parentId.value, t[i].userId) {
      assert t[i] in s;
      var k :| 0 <= k < |s| && s[k] == t[i];
      assert HasRow(s, t[i].parentId.value, s[k].userId);
      var j :| 0 <= j < |s| && s[j].id == t[i].parentId.value && s[j].userId == t[i].userId;
      assert s[j] in t;
    }
  }

  // ------------------------------------------------------------- payment

  /** The row with `paid` and `paid_at` set as `UPDATE ... SET paid = ?, paid_at = ?` sets them. */
  function WithPayment(r: Row, paid: bool, at: Timestamp): Row {
    r.(paid := Some(paid), paidAt := if paid then Some(at) else None)
  }

  /** `... WHERE id = ? AND user_id = ?`: the row the payment update applies to. */
  predicate Targets(r: Row, id: int, owner: nat) {
    r.id == id && r.userId == owner
  }

  function MarkPaid(s: seq<Row>, id: int, owner: nat, paid: bool, at: Timestamp): (r: seq<Row>)
    ensures |r| == |s|
    ensures forall i :: 0 <= i < |s| ==> r[i] == if Targets(s[i], id, owner) then WithPayment(s[i], paid, at) else s[i]
  {
    seq(|s|, i requires 0 <= i < |s| => if Targets(s[i], id, owner) then WithPayment(s[i], paid, at) else s[i])
  }

  /** The payment update changes no id, owner or link, so the table stays consistent. */
  lemma MarkPaidConsistent(s: seq<Row>, nextId: nat, id: int, owner: nat, paid: bool, at: Timestamp)
    requires Consistent(s, nextId)
    ensures Consistent(MarkPaid(s, id, owner, paid, at), nextId)
  {
    var t := MarkPaid(s, id, owner, paid, at);
    forall i, j | 0 <= i < j < |t| ensures IdBefore(t[i], t[j]) {
      assert IdBefore(s[i], s[j]);
    }
    forall i | 0 <= i < |t| && t[i].parentId.Some? ensures HasRow(t, t[i].parentId.value, t[i].userId) {
      assert HasRow(s, s[i].parentId.value, s[i].userId);
      var j :| 0 <= j < |s| && s[j].id == s[i].parentId.value && s[j].userId == s[i].userId;
      assert t[j].id == s[j].id && t[j].userId == s[j].userId;
    }
  }

  /** In a consistent table the payment update changes at most one row, and only its payment columns. */
  lemma MarkPaidAtMostOne(s: seq<Row>, nextId: nat, id: int, owner: nat, paid: bool, at: Timestamp, i: nat, j: nat)
    requires Consistent(s, nextId)
    requires i < |s| && j < |s| && i != j
    ensures MarkPaid(s, id, owner, paid, at)[i] == s[i] || MarkPaid(s, id, owner, paid, at)[j] == s[j]
  {
    IdsUnique(s, nextId, i, j);
  }

  /** An update whose id and owner match no row leaves the table as it was. */
  lemma MarkPaidNoMatch(s: seq<Row>, id: int, owner: nat, paid: bool, at: Timestamp)
    requires forall i :: 0 <= i < |s| ==> !Targets(s[i], id, owner)
    ensures MarkPaid(s, id, owner, paid, at) == s
  {
  }

  /** The transactions table. */
  class TransactionTable {
    var rows: seq<Row>
    var nextId: nat

    ghost predicate Valid()
      reads this
    {
      Consistent(rows, nextId)
    }

    constructor ()
      ensures Valid() && rows == [] && nextId == 1
    {
      rows := [];
      nextId := 1;
    }

    /**
     * `INSERT` of one row, which receives the next id (`lastID`). The model
     * keeps every parent link pointing at a row of the same owner.
     */
    method Insert(r: Row) returns (id: nat)
      requires Valid()
      requires r.parentId.Some? ==> HasRow(rows, r.parentId.value, r.userId)
      modifies this
      ensures Valid()
      ensures id == old(nextId) && nextId == id + 1
      ensures rows == old(rows) + [r.(id := id)]
    {
      id := nextId;
      AppendConsistent(rows, nextId, r.(id := id));
      rows := rows + [r.(id := id)];
      nextId := nextId + 1;
    }

    /** `DELETE FROM transactions WHERE user_id = ?`. */
    method DeleteOwner(owner: nat)
      requires Valid()
      modifies this
      ensures Valid()
      ensures rows == WithoutOwner(old(rows), owner) && nextId == old(nextId)
    {
      WithoutOwnerConsistent(rows, nextId, owner);
      rows := WithoutOwner(rows, owner);
    }

    /** `UPDATE transactions SET paid = ?, paid_at = ? WHERE id = ? AND user_id = ?`. */
    method SetPaid(id: int, owner: nat, paid: bool, at: Timestamp)
      requires Valid()
      modifies this
      ensures Valid()
      ensures rows == MarkPaid(old(rows), id, owner, paid, at) && nextId == old(nextId)
    {
      MarkPaidConsistent(rows, nextId, id, owner, paid, at);
      rows := MarkPaid(rows, id, owner, paid, at);
    }
  }
}
