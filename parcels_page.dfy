/**
 * The parcels page (`app/parcels/page.tsx`): which fetched parcels count as
 * overdue, the three filter tabs, the counters and total above the list, and
 * the guard of "mark as paid".
 */
module ParcelsPage {
  import opened Wrappers
  import opened Calendar
  import opened Listing
  import opened Ledger

  /** `parcel.paid` as JavaScript reads it: NULL and 0 are falsy. */
  predicate IsPaid(r: Row) {
    r.paid == Some(true)
  }

  /** `new Date(parcel.date) < new Date() && !parcel.paid` */
  predicate IsOverdue(r: Row, now: Instant) {
    InstantLt(StartOf(r.date), now) && !IsPaid(r)
  }

  /** The tab filter: 'pending' keeps what is not overdue, 'overdue' what is, anything else keeps all. */
  predicate TabKeeps(filter: string, r: Row, now: Instant) {
    if filter == "pending" then !IsOverdue(r, now)
    else if filter == "overdue" then IsOverdue(r, now)
    else true
  }

  function FilteredParcels(parcels: seq<Row>, filter: string, now: Instant): (r: seq<Row>)
    ensures forall x :: x in r <==> x in parcels && TabKeeps(filter, x, now)
    ensures forall x :: multiset(r)[x] == if TabKeeps(filter, x, now) then multiset(parcels)[x] else 0
  {
    var keep := (x: Row) => TabKeeps(filter, x, now);
    forall x ensures multiset(Filter(parcels, keep))[x] == if keep(x) then multiset(parcels)[x] else 0 {
      FilterMultiplicity(parcels, keep, x);
    }
    Filter(parcels, keep)
  }

  /** `totalPending` */
  function TotalPending(parcels: seq<Row>, now: Instant): nat {
    |Filter(parcels, (x: Row) => !IsOverdue(x, now))|
  }

  /** `totalOverdue` */
  function TotalOverdue(parcels: seq<Row>, now: Instant): nat {
    |Filter(parcels, (x: Row) => IsOverdue(x, now))|
  }

  /** `totalAmount`: the amounts of the unpaid parcels. */
  function TotalAmount(parcels: seq<Row>): real {
    SumBy(Filter(parcels, (x: Row) => !IsPaid(x)), Amount)
  }

  /** Every parcel is counted once, as pending or as overdue. */
  lemma CountersPartition(parcels: seq<Row>, now: Instant)
    ensures TotalPending(parcels, now) + TotalOverdue(parcels, now) == |parcels|
  {
    FilterComplementLength(parcels, (x: Row) => IsOverdue(x, now), (x: Row) => !IsOverdue(x, now));
  }

  /** The pending and overdue tabs split the list: each parcel is in exactly one of them. */
  lemma TabsPartition(parcels: seq<Row>, now: Instant)
    ensures forall x :: multiset(FilteredParcels(parcels, "pending", now))[x] + multiset(FilteredParcels(parcels, "overdue", now))[x]
                        == multiset(FilteredParcels(parcels, "all", now))[x]
    ensures FilteredParcels(parcels, "all", now) == parcels
  {
    FilterAll(parcels, (x: Row) => TabKeeps("all", x, now));
  }

  /** A paid parcel is never overdue, however old. */
  lemma PaidNotOverdue(parcels: seq<Row>, now: Instant, x: Row)
    requires x in parcels && IsPaid(x)
    ensures x in FilteredParcels(parcels, "pending", now) && x !in FilteredParcels(parcels, "overdue", now)
  {
  }

  /** The unpaid total is the unpaid overdue amount plus the unpaid amount not yet due. */
  lemma TotalAmountSplits(parcels: seq<Row>, now: Instant)
    ensures TotalAmount(parcels)
            == SumBy(Filter(parcels, (x: Row) => IsOverdue(x, now)), Amount)
             + SumBy(Filter(parcels, (x: Row) => !IsPaid(x) && !InstantLt(StartOf(x.date), now)), Amount)
  {
    SumByFilterSplit(parcels, (x: Row) => !IsPaid(x), (x: Row) => IsOverdue(x, now),
                     (x: Row) => !IsPaid(x) && !InstantLt(StartOf(x.date), now), Amount);
  }

  /** The row `handleMarkAsPaid(id)` sends: the first listed parcel with that id, with `paid` set, or nothing. */
  function MarkAsPaidRequest(parcels: seq<Row>, id: int): (r: Option<Row>)
    ensures r.None? <==> forall i :: 0 <= i < |parcels| ==> parcels[i].id != id
    ensures r.Some? ==> exists i :: 0 <= i < |parcels| && parcels[i].id == id && r.value == parcels[i].(paid := Some(true))
                                  && forall j :: 0 <= j < i ==> parcels[j].id != id
  {
    if |parcels| == 0 then None
    else if parcels[0].id == id then Some(parcels[0].(paid := Some(true)))
    else
      var r := MarkAsPaidRequest(parcels[1..], id);
      assert forall i :: 1 <= i < |parcels| ==> parcels[i] == parcels[1..][i - 1];
      if r.Some? then
        var i :| 0 <= i < |parcels[1..]| && parcels[1..][i].id == id && r.value == parcels[1..][i].(paid := Some(true))
                 && forall j :: 0 <= j < i ==> parcels[1..][j].id != id;
        assert forall j :: 0 <= j < i + 1 ==> parcels[j].id != id;
        r
      else r
  }

  /** The request changes nothing but `paid`, which it sets. */
  lemma MarkAsPaidChangesOnlyPaid(parcels: seq<Row>, id: int)
    requires MarkAsPaidRequest(parcels, id).Some?
    ensures var r := MarkAsPaidRequest(parcels, id).value;
      r.id == id && IsPaid(r) && exists p :: p in parcels && r == p.(paid := Some(true))
  {
    var r := MarkAsPaidRequest(parcels, id).value;
    var i :| 0 <= i < |parcels| && parcels[i].id == id && r == parcels[i].(paid := Some(true));
    assert parcels[i] in parcels;
  }
}
