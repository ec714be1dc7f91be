/** The five management pages: how each one reacts to a failed load, and the inventory alert. */
module Pages {
  import opened Wrappers
  import opened Seqs
  import opened Entities
  import opened CrudPage
  import DbService
  import InventoryList

  datatype Screen = Appointments | Customers | RepairOrders | Invoices | Inventory

  /** Four pages show their sample data when loading fails; the inventory page keeps its list. */
  function FallbackFor<T>(screen: Screen, sample: seq<T>): (f: Fallback<T>)
    ensures f.KeepPrevious? <==> screen == Inventory
    ensures f.Substitute? ==> f.sample == sample
  {
    if screen == Inventory then KeepPrevious else Substitute(sample)
  }

  /** A failed load is reported as an error only on the inventory page. */
  lemma FailedLoadNotice<T>(screen: Screen, p: Page<T>, sample: seq<T>, e: DbService.GatewayError)
    ensures var r := Load(p, Err(e), FallbackFor(screen, sample));
      |r.1| == 1 && (r.1[0].destructive <==> screen == Inventory)
    ensures screen != Inventory ==> Load(p, Err(e), FallbackFor(screen, sample)).0.items == sample
    ensures screen == Inventory ==> Load(p, Err(e), FallbackFor(screen, sample)).0.items == p.items
  {
  }

  /** `lowStockCount`: items strictly under their minimum. */
  function LowStockCount(items: seq<InventoryItem>): (n: nat)
    ensures n <= |items|
    ensures n > 0 <==> exists i :: 0 <= i < |items| && BelowMinimum(items[i])
    ensures n == |Passing(items, BelowMinimum)|
  {
    var low := Filter(items, BelowMinimum);
    FilterLengthCountsIndices(items, BelowMinimum);
    assert forall i :: 0 <= i < |items| && BelowMinimum(items[i]) ==> items[i] in low;
    |low|
  }

  /** The warning banner shows exactly when some item is under its minimum. */
  predicate ShowsLowStockAlert(items: seq<InventoryItem>)
  {
    LowStockCount(items) > 0
  }

  /**
   * The page counts strictly under the minimum while the list's low-stock view
   * keeps items at the minimum too, so the page never counts more than that view shows.
   */
  lemma AlertCountAtMostLowStockView(items: seq<InventoryItem>)
    ensures LowStockCount(items) <= |InventoryList.Visible(items, "", InventoryList.LowStock)|
  {
    var all := Filter(items, (x: InventoryItem) => InventoryList.Matches(x, ""));
    assert all == items by {
      InventoryList.EmptySearchShowsAll(items);
    }
    FilterCountMonotone(items, BelowMinimum, AtOrBelowMinimum);
  }
}
