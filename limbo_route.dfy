/**
 * `/api/limbo`: the `limbo_debts` table (debts parked outside the monthly
 * budget), listed newest first and created one at a time.
 */
module LimboRoute {
  import opened Wrappers
  import opened Listing
  import opened Http
  import opened Ledger

  /** One row of `limbo_debts`. */
  datatype Debt = Debt(id: nat, userId: nat, description: string, amount: real, createdAt: Timestamp)

  predicate DebtIdBefore(a: Debt, b: Debt) {
    a.id < b.id
  }

  predicate DebtsConsistent(s: seq<Debt>, nextId: nat) {
    SortedBy(s, DebtIdBefore) && forall i :: 0 <= i < |s| ==> s[i].id < nextId
  }

  /** `DELETE FROM limbo_debts WHERE user_id = ?`. */
  function DebtsWithoutOwner(s: seq<Debt>, owner: nat): (r: seq<Debt>)
    ensures forall x :: multiset(r)[x] == if x.userId != owner then multiset(s)[x] else 0
  {
    var keep := (x: Debt) => x.userId != owner;
    forall x ensures multiset(Filter(s, keep))[x] == if keep(x) then multiset(s)[x] else 0 {
      FilterMultiplicity(s, keep, x);
    }
    Filter(s, keep)
  }

  class DebtTable {
    var rows: seq<Debt>
    var nextId: nat

    ghost predicate Valid()
      reads this
    {
      DebtsConsistent(rows, nextId)
    }

    constructor ()
      ensures Valid() && rows == [] && nextId == 1
    {
      rows := [];
      nextId := 1;
    }

    /** `INSERT INTO limbo_debts (user_id, description, amount)`; `created_at` is the current time. */
    method Insert(user: nat, description: string, amount: real, now: Timestamp) returns (id: nat)
      requires Valid()
      modifies this
      ensures Valid()
      ensures id == old(nextId) && nextId == id + 1
      ensures rows == old(rows) + [Debt(id, user, description, amount, now)]
    {
      id := nextId;
      rows := rows + [Debt(id, user, description, amount, now)];
      nextId := nextId + 1;
    }

    method DeleteOwner(owner: nat)
      requires Valid()
      modifies this
      ensures Valid()
      ensures rows == DebtsWithoutOwner(old(rows), owner) && nextId == old(nextId)
    {
      FilterSortedBy(rows, (x: Debt) => x.userId != owner, DebtIdBefore);
      rows := DebtsWithoutOwner(rows, owner);
    }
  }

  // ------------------------------------------------------------------ GET

  /** `ORDER BY created_at DESC` */
  predicate NewestDebtFirst(a: Debt, b: Debt) {
    a.createdAt >= b.createdAt
  }

  /** `WHERE user_id = ?` */
  function OwnedBy(user: nat): Debt -> bool {
    (x: Debt) => x.userId == user
  }

  /** `SELECT * FROM limbo_debts WHERE user_id = ? ORDER BY created_at DESC` */
  function ListDebts(s: seq<Debt>, user: nat): (r: seq<Debt>)
    ensures forall x :: multiset(r)[x] == if x.userId == user then multiset(s)[x] else 0
    ensures SortedBy(r, NewestDebtFirst)
  {
    var keep := OwnedBy(user);
    forall x ensures multiset(Filter(s, keep))[x] == if keep(x) then multiset(s)[x] else 0 {
      FilterMultiplicity(s, keep, x);
    }
    SortBySorted(Filter(s, keep), NewestDebtFirst);
    SortBy(Filter(s, keep), NewestDebtFirst)
  }

  function Get(user: Option<nat>, s: seq<Debt>): (r: Reply<seq<Debt>>)
    ensures user.None? <==> r == Unauthorized(NotAuthenticated)
    ensures r.Ok? ==> r.body == ListDebts(s, user.value)
  {
    if user.None? then Unauthorized(NotAuthenticated) else Ok(ListDebts(s, user.value))
  }

  /** The listing holds every debt of the caller and no debt of anyone else. */
  lemma ListDebtsOwnRows(s: seq<Debt>, user: nat, x: Debt)
    ensures x in ListDebts(s, user) <==> x in s && x.userId == user
  {
    assert multiset(ListDebts(s, user))[x] == if x.userId == user then multiset(s)[x] else 0;
  }

  // ----------------------------------------------------------------- POST

  /** The JSON body; an absent description is "" and an absent amount 0. */
  datatype NewDebt = NewDebt(description: string, amount: real)

  const MissingDescriptionOrAmountError := "Descrição e valor são obrigatórios"

  /** 401, 400 when the description or the amount is falsy (so an amount of 0 too), else the new id. */
  function PostReply(user: Option<nat>, q: NewDebt, nextId: nat): Reply<nat> {
    if user.None? then Unauthorized(NotAuthenticated)
    else if q.description == "" || q.amount == 0.0 then BadRequest(MissingDescriptionOrAmountError)
    else Ok(nextId)
  }

  method Post(table: DebtTable, user: Option<nat>, q: NewDebt, now: Timestamp) returns (reply: Reply<nat>)
    requires table.Valid()
    modifies table
    ensures table.Valid()
    ensures reply == PostReply(user, q, old(table.nextId))
    ensures reply.Ok? ==> table.rows == old(table.rows) + [Debt(reply.body, user.value, q.description, q.amount, now)]
    ensures !reply.Ok? ==> table.rows == old(table.rows) && table.nextId == old(table.nextId)
  {
    if user.None? {
      return Unauthorized(NotAuthenticated);
    }
    if q.description == "" || q.amount == 0.0 {
      return BadRequest(MissingDescriptionOrAmountError);
    }
    var id := table.Insert(user.value, q.description, q.amount, now);
    return Ok(id);
  }

  /** After an accepted POST the caller's listing gains exactly the new debt. */
  lemma PostThenList(s: seq<Debt>, user: nat, q: NewDebt, id: nat, now: Timestamp)
    ensures multiset(ListDebts(s + [Debt(id, user, q.description, q.amount, now)], user))
            == multiset(ListDebts(s, user)) + multiset{Debt(id, user, q.description, q.amount, now)}
  {
    var d := Debt(id, user, q.description, q.amount, now);
    var keep := OwnedBy(user);
    FilterAppend(s, [d], keep);
    FilterSingleton(d, keep);
    assert ListDebts(s + [d], user) == SortBy(Filter(s, keep) + [d], NewestDebtFirst);
    assert ListDebts(s, user) == SortBy(Filter(s, keep), NewestDebtFirst);
  }
}
