/**
 * `DELETE /api/transactions/clear`: removes every transaction, category and
 * limbo debt of the caller, one table after the other. Notes and tasks are
 * kept.
 */
module ClearRoute {
  import opened Wrappers
  import opened Http
  import opened Ledger
  import CategoriesRoute
  import LimboRoute
  import TasksRoute
  import NotesRoute

  const ClearedMessage := "Todos os seus dados foram excluídos com sucesso"

  /** The handler: 401 without a user, otherwise the three deletes and a success message. */
  method Clear(transactions: TransactionTable, categories: CategoriesRoute.CategoryTable, debts: LimboRoute.DebtTable,
               tasks: TasksRoute.TaskTable, notes: NotesRoute.NoteTable, user: Option<nat>) returns (reply: Reply<string>)
    requires transactions.Valid() && categories.Valid() && debts.Valid()
    modifies transactions, categories, debts
    ensures transactions.Valid() && categories.Valid() && debts.Valid()
    ensures user.None? <==> reply == Unauthorized(NotAuthenticated)
    ensures user.Some? ==> reply == Ok(ClearedMessage)
    ensures user.None? ==> unchanged(transactions, categories, debts)
    ensures user.Some? ==>
      && transactions.rows == WithoutOwner(old(transactions.rows), user.value)
      && categories.rows == CategoriesRoute.CategoriesWithoutOwner(old(categories.rows), user.value)
      && debts.rows == LimboRoute.DebtsWithoutOwner(old(debts.rows), user.value)
    ensures transactions.nextId == old(transactions.nextId) && categories.nextId == old(categories.nextId)
            && debts.nextId == old(debts.nextId)
    ensures unchanged(tasks, notes)
  {
    if user.None? {
      return Unauthorized(NotAuthenticated);
    }
    transactions.DeleteOwner(user.value);
    categories.DeleteOwner(user.value);
    debts.DeleteOwner(user.value);
    return Ok(ClearedMessage);
  }

  /**
   * After the wipe the caller owns nothing in the three tables, and every
   * row of every other owner is still there, as many times as before.
   */
  lemma ClearEffect(t: seq<Row>, c: seq<CategoriesRoute.Category>, d: seq<LimboRoute.Debt>, user: nat)
    ensures forall x :: x in WithoutOwner(t, user) ==> x.userId != user
    ensures forall x :: x in CategoriesRoute.CategoriesWithoutOwner(c, user) ==> x.userId != user
    ensures forall x :: x in LimboRoute.DebtsWithoutOwner(d, user) ==> x.userId != user
    ensures forall x: Row :: x.userId != user ==> multiset(WithoutOwner(t, user))[x] == multiset(t)[x]
    ensures forall x: CategoriesRoute.Category :: x.userId != user ==> multiset(CategoriesRoute.CategoriesWithoutOwner(c, user))[x] == multiset(c)[x]
    ensures forall x: LimboRoute.Debt :: x.userId != user ==> multiset(LimboRoute.DebtsWithoutOwner(d, user))[x] == multiset(d)[x]
  {
    forall x | x in CategoriesRoute.CategoriesWithoutOwner(c, user) ensures x.userId != user {
      assert multiset(CategoriesRoute.CategoriesWithoutOwner(c, user))[x] > 0;
    }
    forall x | x in LimboRoute.DebtsWithoutOwner(d, user) ensures x.userId != user {
      assert multiset(LimboRoute.DebtsWithoutOwner(d, user))[x] > 0;
    }
  }

  /** Wiping twice is wiping once. */
  lemma ClearIdempotent(t: seq<Row>, c: seq<CategoriesRoute.Category>, d: seq<LimboRoute.Debt>, user: nat)
    ensures multiset(WithoutOwner(WithoutOwner(t, user), user)) == multiset(WithoutOwner(t, user))
    ensures multiset(CategoriesRoute.CategoriesWithoutOwner(CategoriesRoute.CategoriesWithoutOwner(c, user), user))
            == multiset(CategoriesRoute.CategoriesWithoutOwner(c, user))
    ensures multiset(LimboRoute.DebtsWithoutOwner(LimboRoute.DebtsWithoutOwner(d, user), user))
            == multiset(LimboRoute.DebtsWithoutOwner(d, user))
  {
    var t1 := WithoutOwner(t, user);
    forall x ensures multiset(WithoutOwner(t1, user))[x] == multiset(t1)[x] {
    }
    assert multiset(WithoutOwner(t1, user)) == multiset(t1);
    var c1 := CategoriesRoute.CategoriesWithoutOwner(c, user);
    forall x ensures multiset(CategoriesRoute.CategoriesWithoutOwner(c1, user))[x] == multiset(c1)[x] {
    }
    assert multiset(CategoriesRoute.CategoriesWithoutOwner(c1, user)) == multiset(c1);
    var d1 := LimboRoute.DebtsWithoutOwner(d, user);
    forall x ensures multiset(LimboRoute.DebtsWithoutOwner(d1, user))[x] == multiset(d1)[x] {
    }
    assert multiset(LimboRoute.DebtsWithoutOwner(d1, user)) == multiset(d1);
  }
}
