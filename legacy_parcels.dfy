/**
 * The stand-alone `route.ts` handler: every parceled row in the table, of
 * every owner, by date, with no authentication.
 */
module LegacyParcels {
  import opened Calendar
  import opened Listing
  import opened Ledger
  import ParcelsRoute

  function AllParcels(rows: seq<Row>): (r: seq<Row>)
    ensures forall x :: multiset(r)[x] == if x.isParceled then multiset(rows)[x] else 0
    ensures SortedBy(r, ParcelsRoute.EarliestFirst)
  {
    var keep := (x: Row) => x.isParceled;
    forall x ensures multiset(Filter(rows, keep))[x] == if keep(x) then multiset(rows)[x] else 0 {
      FilterMultiplicity(rows, keep, x);
    }
    ParcelsRoute.EarliestFirstTotalPreorder();
    SortBySorted(Filter(rows, keep), ParcelsRoute.EarliestFirst);
    SortBy(Filter(rows, keep), ParcelsRoute.EarliestFirst)
  }

  /**
   * No owner filter and no parent requirement: every parceled row appears,
   * including other users' rows and rows without a parent, and nothing else.
   */
  lemma AllParcelsUnscoped(rows: seq<Row>, x: Row)
    ensures x in AllParcels(rows) <==> x in rows && x.isParceled
  {
    assert multiset(AllParcels(rows))[x] == if x.isParceled then multiset(rows)[x] else 0;
  }

  /** The scoped parcels listing of any user is contained in this one. */
  lemma ScopedListingIncluded(rows: seq<Row>, user: nat, month: string, year: string, status: string, today: Date)
    ensures multiset(ParcelsRoute.ListParcels(rows, user, month, year, status, today)) <= multiset(AllParcels(rows))
  {
    var scoped := ParcelsRoute.ListParcels(rows, user, month, year, status, today);
    var all := AllParcels(rows);
    forall x ensures multiset(scoped)[x] <= multiset(all)[x] {
      assert multiset(scoped)[x] == if ParcelsRoute.ParcelListed(x, user, month, year, status, today) then multiset(rows)[x] else 0;
      assert multiset(all)[x] == if x.isParceled then multiset(rows)[x] else 0;
    }
  }
}
