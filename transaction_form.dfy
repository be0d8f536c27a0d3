/**
 * The transaction form (`components/TransactionForm.tsx`): its `formData`
 * state, the input handler that keeps "fixed" and "parceled" exclusive, the
 * guard on the parcel-count input, and the payload it submits.
 */
module TransactionFormModel {
  import opened Wrappers
  import opened Text
  import opened Calendar
  import TransactionsRoute

  /** The parcel-count input holds a number, or nothing after the user clears it. */
  datatype ParcelCount = Count(n: int) | Blank

  datatype FormData = FormData(
    description: string,
    amount: string,
    kind: string,
    category: string,
    date: string,
    isParceled: bool,
    totalParcels: ParcelCount,
    isFixed: bool)

  /** One call of `handleInputChange(field, value)`. */
  datatype FieldChange =
    | SetDescription(description: string)
    | SetAmount(amount: string)
    | SetKind(kind: string)
    | SetCategory(category: string)
    | SetDate(date: string)
    | SetParceled(parceled: bool)
    | SetParcels(count: ParcelCount)
    | SetFixed(fixed: bool)

  /** The form never has both flags set. */
  predicate NotBoth(f: FormData) {
    !(f.isParceled && f.isFixed)
  }

  /** The state of a fresh form: an expense dated today, neither fixed nor parceled, 2 parcels proposed. */
  function Initial(today: string): (f: FormData)
    ensures NotBoth(f) && !f.isParceled && !f.isFixed && f.totalParcels == Count(2)
  {
    FormData("", "", "expense", "", today, false, Count(2), false)
  }

  /** The new `formData` after one change: the field is overwritten, then setting one flag clears the other. */
  function Changed(f: FormData, c: FieldChange): (g: FormData)
    ensures NotBoth(f) ==> NotBoth(g)
    ensures c.SetFixed? && c.fixed ==> !g.isParceled
    ensures c.SetParceled? && c.parceled ==> !g.isFixed
  {
    match c
    case SetDescription(v) => f.(description := v)
    case SetAmount(v) => f.(amount := v)
    case SetKind(v) => f.(kind := v)
    case SetCategory(v) => f.(category := v)
    case SetDate(v) => f.(date := v)
    case SetParcels(v) => f.(totalParcels := v)
    case SetParceled(v) => if v then f.(isParceled := true, isFixed := false) else f.(isParceled := false)
    case SetFixed(v) => if v then f.(isFixed := true, isParceled := false) else f.(isFixed := false)
  }

  /** A change touches its own field and, at most, the other flag. */
  lemma ChangedTouchesOnlyItsField(f: FormData, c: FieldChange)
    ensures var g := Changed(f, c);
      && g.description == (if c.SetDescription? then c.description else f.description)
      && g.amount == (if c.SetAmount? then c.amount else f.amount)
      && g.kind == (if c.SetKind? then c.kind else f.kind)
      && g.category == (if c.SetCategory? then c.category else f.category)
      && g.date == (if c.SetDate? then c.date else f.date)
      && g.totalParcels == (if c.SetParcels? then c.count else f.totalParcels)
      && g.isParceled == (if c.SetParceled? then c.parceled else if c.SetFixed? && c.fixed then false else f.isParceled)
      && g.isFixed == (if c.SetFixed? then c.fixed else if c.SetParceled? && c.parceled then false else f.isFixed)
  {
  }

  /** The number-input guard: '' or an integer from 2 to 24 is taken, anything else is ignored. */
  function ParcelCountEdit(value: string): (c: Option<ParcelCount>)
    ensures c.Some? && c.value.Count? ==> 2 <= c.value.n <= 24
    ensures value == "" ==> c == Some(Blank)
  {
    if value == "" then Some(Blank)
    else match ParseInt(value)
      case Some(n) => if 2 <= n <= 24 then Some(Count(n)) else None
      case None => None
  }

  /** What `handleSubmit` sends: the form plus the normalised parcel count, `current_parcel` 1 and `paid` false. */
  datatype Payload = Payload(
    description: string,
    amount: string,
    kind: string,
    category: string,
    date: string,
    isParceled: bool,
    totalParcels: int,
    isFixed: bool,
    currentParcel: int,
    paid: bool)

  /** `parseInt(total_parcels.toString()) || 2`: a blank input and a zero both fall back to 2. */
  function ParsedCount(c: ParcelCount): int {
    match c
    case Blank => 2
    case Count(n) => if n == 0 then 2 else n
  }

  /** `is_parceled ? Math.max(2, parsed) : 1` */
  function SubmittedCount(f: FormData): (n: int)
    ensures f.isParceled ==> n >= 2
    ensures !f.isParceled ==> n == 1
    ensures f.isParceled && f.totalParcels.Count? && f.totalParcels.n >= 2 ==> n == f.totalParcels.n
  {
    if f.isParceled then (if ParsedCount(f.totalParcels) >= 2 then ParsedCount(f.totalParcels) else 2) else 1
  }

  function Submit(f: FormData): (p: Payload)
    ensures p.currentParcel == 1 && !p.paid
    ensures p.isParceled == f.isParceled && p.isFixed == f.isFixed
    ensures p.totalParcels == SubmittedCount(f)
    ensures p.description == f.description && p.amount == f.amount && p.kind == f.kind
            && p.category == f.category && p.date == f.date
  {
    Payload(f.description, f.amount, f.kind, f.category, f.date, f.isParceled, SubmittedCount(f), f.isFixed, 1, false)
  }

  /**
   * The request the server reads from a payload, once `parseFloat` has given
   * the amount and the date text has been read as a date.
   */
  function AsRequest(p: Payload, amount: real, date: Option<Date>): TransactionsRoute.NewTransaction {
    TransactionsRoute.NewTransaction(p.description, amount, p.kind, p.category, date, p.isParceled, p.totalParcels, Some(p.paid), p.isFixed)
  }

  /**
   * What the form submits is never refused for being fixed and parceled, and
   * a parceled submission always splits into parcels on the server.
   */
  lemma SubmissionAgreesWithServer(f: FormData, amount: real, date: Option<Date>)
    requires NotBoth(f)
    ensures !TransactionsRoute.FixedAndParceled(AsRequest(Submit(f), amount, date))
    ensures f.isParceled <==> TransactionsRoute.SplitsIntoParcels(AsRequest(Submit(f), amount, date))
  {
  }

  /** The form component's state. */
  class TransactionForm {
    var formData: FormData

    ghost predicate Valid()
      reads this
    {
      NotBoth(formData)
    }

    constructor (today: string)
      ensures Valid() && formData == Initial(today)
    {
      formData := Initial(today);
    }

    /** `handleInputChange` */
    method HandleInputChange(c: FieldChange)
      requires Valid()
      modifies this
      ensures Valid()
      ensures formData == Changed(old(formData), c)
    {
      var next := formData;
      match c {
        case SetDescription(v) => next := next.(description := v);
        case SetAmount(v) => next := next.(amount := v);
        case SetKind(v) => next := next.(kind := v);
        case SetCategory(v) => next := next.(category := v);
        case SetDate(v) => next := next.(date := v);
        case SetParcels(v) => next := next.(totalParcels := v);
        case SetParceled(v) => next := next.(isParceled := v);
        case SetFixed(v) => next := next.(isFixed := v);
      }
      if c.SetFixed? && c.fixed {
        next := next.(isParceled := false);
      }
      if c.SetParceled? && c.parceled {
        next := next.(isFixed := false);
      }
      formData := next;
    }

    /** The `onChange` of the parcel-count input. */
    method ParcelCountInput(value: string)
      requires Valid()
      modifies this
      ensures Valid()
      ensures formData == match ParcelCountEdit(value)
                          case Some(count) => old(formData).(totalParcels := count)
                          case None => old(formData)
    {
      var edit := ParcelCountEdit(value);
      if edit.Some? {
        assert Changed(formData, SetParcels(edit.value)) == formData.(totalParcels := edit.value);
        HandleInputChange(SetParcels(edit.value));
      }
    }

    /** `handleSubmit`: the payload handed to `onSave`. */
    method HandleSubmit() returns (p: Payload)
      requires Valid()
      ensures p == Submit(formData)
      ensures !(p.isFixed && p.isParceled)
      ensures p.isParceled ==> p.totalParcels >= 2
    {
      p := Submit(formData);
    }
  }
}
