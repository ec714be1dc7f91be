/** The repair-order list: search, status filter, deletion and the per-card total. */
module RepairOrdersList {
  import opened Seqs
  import opened LineItems
  import opened Entities
  import opened ListView

  predicate Matches(order: RepairOrder, query: string)
  {
    MatchesIgnoringCase(order.customerName, query) || MatchesIgnoringCase(order.vehicleInfo, query)
    || MatchesIgnoringCase(order.orderNumber, query)
  }

  /** `filteredOrders`: the search, then the status filter unless it is "all". */
  function Visible(orders: seq<RepairOrder>, query: string, statusFilter: string): (r: seq<RepairOrder>)
    ensures forall o :: o in r <==> o in orders && Matches(o, query) && StatusAllows(statusFilter, o.status)
    ensures IsSubsequence(r, orders)
    ensures forall o :: multiset(r)[o] ==
             if Matches(o, query) && StatusAllows(statusFilter, o.status) then multiset(orders)[o] else 0
  {
    var found := Filter(orders, (o: RepairOrder) => Matches(o, query));
    if statusFilter != "all" then
      var kept := Filter(found, (o: RepairOrder) => o.status == statusFilter);
      SubsequenceTransitive(kept, found, orders);
      kept
    else found
  }

  /** With the filter on "all" and an empty search every order is listed, in order. */
  lemma {:induction false} EmptySearchShowsAll(orders: seq<RepairOrder>)
    ensures Visible(orders, "", "all") == orders
  {
    if |orders| > 0 {
      EmptySearchShowsAll(orders[1..]);
      EmptyQueryMatches(orders[0].customerName);
      assert orders == [orders[0]] + orders[1..];
      FilterAppend([orders[0]], orders[1..], (o: RepairOrder) => Matches(o, ""));
    }
  }

  /** `handleDelete`: drops the orders with `id` from the local list only. */
  function Delete(orders: seq<RepairOrder>, id: int): (r: seq<RepairOrder>)
    ensures forall o :: o in r <==> o in orders && o.id != id
    ensures IsSubsequence(r, orders)
    ensures forall o :: multiset(r)[o] == if o.id != id then multiset(orders)[o] else 0
  {
    Filter(orders, (o: RepairOrder) => o.id != id)
  }

  /** Deleting an id that is not listed leaves the list as it was. */
  lemma {:induction false} DeleteAbsent(orders: seq<RepairOrder>, id: int)
    requires forall i :: 0 <= i < |orders| ==> orders[i].id != id
    ensures Delete(orders, id) == orders
  {
    if |orders| > 0 {
      DeleteAbsent(orders[1..], id);
      assert orders == [orders[0]] + orders[1..];
      FilterAppend([orders[0]], orders[1..], (o: RepairOrder) => o.id != id);
    }
  }

  /** The total on a card is never negative when no line has a negative quantity or price. */
  lemma CardTotalNonNegative(order: RepairOrder)
    requires order.items.Some? ==> forall i :: 0 <= i < |order.items.value| ==>
      order.items.value[i].quantity >= 0.0 && order.items.value[i].unitPrice >= 0.0
    ensures OrderTotal(order) >= 0.0
  {
    if order.items.Some? {
      ItemsTotalNonNegative(order.items.value);
    }
  }
}
