/**
 * The limbo page (`app/limbo/page.tsx`): the debt form, the request its
 * save button sends (a new debt or an edit of the one being edited), the
 * reset after a save the server accepts, and the total shown above the list.
 */
module LimboPage {
  import opened Wrappers
  import opened Text
  import opened Listing
  import opened Ledger
  import opened LimboRoute

  /** The two text inputs. */
  datatype DebtForm = DebtForm(description: string, amount: string)

  const EmptyForm := DebtForm("", "")
  const FillAllFieldsAlert := "Preencha todos os campos"
  const LimboPath := "/api/limbo"

  /** `/api/limbo/{id}` */
  function DebtPath(id: nat): (p: string)
    ensures |p| > |LimboPath| && p[..|LimboPath| + 1] == LimboPath + "/"
  {
    LimboPath + "/" + NatToText(id)
  }

  /** Each debt has its own path, and none is the collection's. */
  lemma DebtPathsDistinct(a: nat, b: nat)
    ensures DebtPath(a) == DebtPath(b) ==> a == b
    ensures DebtPath(a) != LimboPath
  {
    if DebtPath(a) == DebtPath(b) {
      assert NatToText(a) == DebtPath(a)[|LimboPath| + 1..];
      assert NatToText(b) == DebtPath(b)[|LimboPath| + 1..];
      NatToTextRoundTrip(a);
      NatToTextRoundTrip(b);
    }
  }

  /** The request a save sends; the amount is the typed text, which the page reads with `parseFloat`. */
  datatype SaveRequest = SaveRequest(verb: string, path: string, description: string, amount: string)

  /**
   * `handleSaveDebt`: nothing is sent while a field is empty; otherwise a PUT
   * to the edited debt's path, or a POST to the collection.
   */
  function SaveRequestFor(form: DebtForm, editing: Option<nat>): (r: Option<SaveRequest>)
    ensures r.None? <==> form.description == "" || form.amount == ""
    ensures r.Some? ==> r.value.description == form.description && r.value.amount == form.amount
  {
    if form.description == "" || form.amount == "" then None
    else if editing.Some? then Some(SaveRequest("PUT", DebtPath(editing.value), form.description, form.amount))
    else Some(SaveRequest("POST", LimboPath, form.description, form.amount))
  }

  /** An edit reaches exactly the debt being edited, by PUT; a new debt goes to the collection by POST. */
  lemma SaveTargets(form: DebtForm, editing: Option<nat>, other: nat)
    requires SaveRequestFor(form, editing).Some?
    ensures var r := SaveRequestFor(form, editing).value;
      && (r.verb == "PUT" <==> editing.Some?)
      && (r.verb == "POST" <==> r.path == LimboPath)
      && (editing.Some? && other != editing.value ==> r.path != DebtPath(other))
  {
    if editing.Some? {
      DebtPathsDistinct(editing.value, other);
    }
  }

  /** The page's state. The list is refetched after a save, which is not modelled. */
  class Page {
    var debts: seq<Debt>
    var form: DebtForm
    var editing: Option<nat>
    var showForm: bool

    constructor ()
      ensures debts == [] && form == EmptyForm && editing.None? && !showForm
    {
      debts := [];
      form := EmptyForm;
      editing := None;
      showForm := false;
    }

    /** `handleAddDebt`: an empty form for a new debt. */
    method HandleAddDebt()
      modifies this
      ensures form == EmptyForm && editing.None? && showForm
      ensures debts == old(debts)
    {
      editing := None;
      form := EmptyForm;
      showForm := true;
    }

    /**
     * `handleSaveDebt`, where `accepted` is whether the server answered OK:
     * the request is the one `SaveRequestFor` gives; an accepted save closes
     * and empties the form and ends the edit; anything else leaves it as it was.
     */
    method HandleSaveDebt(accepted: bool) returns (sent: Option<SaveRequest>)
      modifies this
      ensures sent == SaveRequestFor(old(form), old(editing))
      ensures sent.Some? && accepted ==> form == EmptyForm && editing.None? && !showForm
      ensures !(sent.Some? && accepted) ==> form == old(form) && editing == old(editing) && showForm == old(showForm)
      ensures debts == old(debts)
    {
      if form.description == "" || form.amount == "" {
        return None;
      }
      if editing.Some? {
        sent := Some(SaveRequest("PUT", DebtPath(editing.value), form.description, form.amount));
      } else {
        sent := Some(SaveRequest("POST", LimboPath, form.description, form.amount));
      }
      if accepted {
        showForm := false;
        editing := None;
        form := EmptyForm;
      }
    }
  }

  // ----------------------------------------------------------------- total

  function Amount(d: Debt): real {
    d.amount
  }

  /** `debts.reduce((sum, debt) => sum + debt.amount, 0)` */
  function TotalDebts(debts: seq<Debt>): (t: real)
    ensures debts == [] ==> t == 0.0
  {
    SumBy(debts, Amount)
  }

  /** The total is the sum of the caller's debts, whatever order the server lists them in. */
  lemma TotalOfListing(s: seq<Debt>, user: nat)
    ensures TotalDebts(ListDebts(s, user)) == TotalDebts(Filter(s, OwnedBy(user)))
  {
    assert ListDebts(s, user) == SortBy(Filter(s, OwnedBy(user)), NewestDebtFirst);
    SortBySum(Filter(s, OwnedBy(user)), NewestDebtFirst, Amount);
  }

  /** After an accepted POST, the total the page shows grows by the new debt's amount. */
  lemma TotalAfterPost(s: seq<Debt>, user: nat, q: NewDebt, id: nat, now: Timestamp)
    ensures TotalDebts(ListDebts(s + [Debt(id, user, q.description, q.amount, now)], user))
            == TotalDebts(ListDebts(s, user)) + q.amount
  {
    var d := Debt(id, user, q.description, q.amount, now);
    TotalOfListing(s + [d], user);
    TotalOfListing(s, user);
    FilterAppend(s, [d], OwnedBy(user));
    FilterSingleton(d, OwnedBy(user));
    SumByAppend(Filter(s, OwnedBy(user)), [d], Amount);
    SumBySingleton(d, Amount);
  }
}
