/**
 * The reports screen: headline statistics, the service distribution, the
 * top-customer and stock rankings, monthly revenue and the stock badges.
 */
module Reports {
  import opened Wrappers
  import opened Seqs
  import opened Text
  import opened Grouping
  import opened LineItems
  import opened Entities

  /** `Math.round`: the nearest integer, halves rounded up. */
  function Round(x: real): (r: int)
    ensures r as real - 0.5 <= x < r as real + 0.5
  {
    (x + 0.5).Floor
  }

  // ----- statistics ---------------------------------------------------------

  predicate IsPaid(inv: Invoice) { inv.status == "paid" }

  predicate IsCompleted(order: RepairOrder) { order.status == "completed" }

  function InvoiceTotal(inv: Invoice): real { inv.total }

  /** What an invoice contributes to revenue: its total when paid, else nothing. */
  function PaidTotal(inv: Invoice): real { if IsPaid(inv) then inv.total else 0.0 }

  /** The total of the paid invoices. */
  function TotalRevenue(invoices: seq<Invoice>): real
  {
    SumBy(Filter(invoices, IsPaid), InvoiceTotal)
  }

  /** Revenue is the sum over all invoices of what each contributes. */
  lemma {:induction false} TotalRevenueIsPaidSum(invoices: seq<Invoice>)
    ensures TotalRevenue(invoices) == SumBy(invoices, PaidTotal)
  {
    if |invoices| > 0 {
      TotalRevenueIsPaidSum(invoices[1..]);
      assert invoices == [invoices[0]] + invoices[1..];
      FilterAppend([invoices[0]], invoices[1..], IsPaid);
      SumByAppend(Filter([invoices[0]], IsPaid), Filter(invoices[1..], IsPaid), InvoiceTotal);
    }
  }

  function CustomerNames(orders: seq<RepairOrder>): (names: seq<string>)
    ensures |names| == |orders|
    ensures forall i :: 0 <= i < |orders| ==> names[i] == orders[i].customerName
  {
    seq(|orders|, i requires 0 <= i < |orders| => orders[i].customerName)
  }

  datatype Statistics = Statistics(totalRevenue: real, completedOrders: nat, uniqueCustomers: nat, averageTicket: real)

  /**
   * `statistics`: paid revenue, completed orders, the number of different
   * customer names across all orders, and revenue per completed order (0 when
   * none is completed).
   */
  function ComputeStatistics(invoices: seq<Invoice>, orders: seq<RepairOrder>): (s: Statistics)
    ensures s.totalRevenue == SumBy(invoices, PaidTotal)
    ensures s.completedOrders == |Filter(orders, IsCompleted)|
    ensures s.uniqueCustomers == |set o | o in orders :: o.customerName|
    ensures s.averageTicket == AverageTicket(s.totalRevenue, s.completedOrders)
  {
    TotalRevenueIsPaidSum(invoices);
    UniqueNamesCount(orders);
    var revenue := TotalRevenue(invoices);
    var completed := |Filter(orders, IsCompleted)|;
    Statistics(revenue, completed, |Distinct(CustomerNames(orders))|, AverageTicket(revenue, completed))
  }

  /** Revenue per completed order, guarded against there being none. */
  function AverageTicket(revenue: real, completed: nat): (avg: real)
    ensures completed == 0 ==> avg == 0.0
    ensures completed > 0 ==> avg * completed as real == revenue
  {
    if completed > 0 then revenue / completed as real else 0.0
  }

  /** Keeping the first of each name counts the names as a set would. */
  lemma UniqueNamesCount(orders: seq<RepairOrder>)
    ensures |Distinct(CustomerNames(orders))| == |set o | o in orders :: o.customerName|
  {
    var names := Distinct(CustomerNames(orders));
    assert (set x | x in names) == (set o | o in orders :: o.customerName) by {
      forall x | x in names ensures x in (set o | o in orders :: o.customerName) {
        var i :| 0 <= i < |orders| && CustomerNames(orders)[i] == x;
        assert orders[i] in orders;
      }
      forall o | o in orders ensures o.customerName in names {
        var i :| 0 <= i < |orders| && orders[i] == o;
        assert CustomerNames(orders)[i] == o.customerName;
      }
    }
    NoDuplicatesCardinality(names);
  }

  // ----- service distribution ----------------------------------------------

  /** The service families the descriptions are sorted into. */
  datatype Service = OilChange | Brakes | Tyres | Diagnosis | Other

  function ServiceName(s: Service): string
  {
    match s
    case OilChange => "Cambio de Aceite"
    case Brakes => "Frenos"
    case Tyres => "Neumáticos"
    case Diagnosis => "Diagnóstico"
    case Other => "Otros"
  }

  lemma ServiceNamesDistinct(a: Service, b: Service)
    ensures ServiceName(a) == ServiceName(b) ==> a == b
  {
  }

  /**
   * The service family of an item, from keywords in its lower-cased
   * description, tried in a fixed order: the first keyword present decides.
   */
  function Classify(description: string): (s: Service)
    ensures var d := LowerStr(description);
      && (s == OilChange <==> Contains(d, "aceite"))
      && (s == Brakes <==> !Contains(d, "aceite") && Contains(d, "freno"))
      && (s == Tyres <==> !Contains(d, "aceite") && !Contains(d, "freno") && Contains(d, "neumático"))
      && (s == Diagnosis <==> !Contains(d, "aceite") && !Contains(d, "freno") && !Contains(d, "neumático")
                              && (Contains(d, "revisión") || Contains(d, "diagnóstico")))
  {
    var d := LowerStr(description);
    if Contains(d, "aceite") then OilChange
    else if Contains(d, "freno") then Brakes
    else if Contains(d, "neumático") then Tyres
    else if Contains(d, "revisión") || Contains(d, "diagnóstico") then Diagnosis
    else Other
  }

  /** Classification does not depend on letter case. */
  lemma ClassifyIgnoresCase(description: string)
    ensures Classify(LowerStr(description)) == Classify(description)
  {
    LowerStrIdempotent(description);
  }

  /** Every item of every order that has items, in order. */
  function AllItems(orders: seq<RepairOrder>): (items: seq<LineItem>)
    ensures forall x :: x in items <==> exists o :: o in orders && o.items.Some? && x in o.items.value
  {
    if |orders| == 0 then []
    else
      var rest := AllItems(orders[1..]);
      assert forall o :: o in orders[1..] ==> o in orders;
      assert forall o :: o in orders ==> o == orders[0] || o in orders[1..];
      orders[0].items.GetOr([]) + rest
  }

  /** Gathering distributes over concatenation of the order list. */
  lemma {:induction false} AllItemsAppend(a: seq<RepairOrder>, b: seq<RepairOrder>)
    ensures AllItems(a + b) == AllItems(a) + AllItems(b)
    decreases |a|
  {
    if |a| == 0 {
      assert a + b == b;
    } else {
      assert (a + b)[0] == a[0];
      assert (a + b)[1..] == a[1..] + b;
      AllItemsAppend(a[1..], b);
      ConcatAssoc(a[0].items.GetOr([]), AllItems(a[1..]), AllItems(b));
    }
  }

  /** A single order contributes its items, every one of them, or nothing when it has none. */
  lemma AllItemsOfOne(o: RepairOrder)
    ensures AllItems([o]) == o.items.GetOr([])
  {
    assert [o][1..] == [];
  }

  /** The family an item is counted under. */
  function ServiceOf(item: LineItem): string { ServiceName(Classify(item.description)) }

  /** How many of `items` fall in family `name`. */
  function FamilyCount(items: seq<LineItem>, name: string): nat
  {
    if |items| == 0 then 0
    else FamilyCount(items[..|items| - 1], name) + (if ServiceOf(items[|items| - 1]) == name then 1 else 0)
  }

  /** The pie's count for a family is the number of items in it. */
  lemma {:induction false} ServiceCountIsFamilyCount(items: seq<LineItem>, name: string)
    ensures SumFor(ServicePairs(items), name) == FamilyCount(items, name) as real
    decreases |items|
  {
    if |items| > 0 {
      var init := items[..|items| - 1];
      assert ServicePairs(items)[..|items| - 1] == ServicePairs(init);
      ServiceCountIsFamilyCount(init, name);
    }
  }

  /** One `(category, 1)` pair per item: what `serviceCounts[category] += 1` counts. */
  function ServicePairs(items: seq<LineItem>): (pairs: seq<(string, real)>)
    ensures |pairs| == |items|
    ensures forall i :: 0 <= i < |items| ==> pairs[i] == (ServiceName(Classify(items[i].description)), 1.0)
  {
    seq(|items|, i requires 0 <= i < |items| => (ServiceName(Classify(items[i].description)), 1.0))
  }

  const Colors: seq<string> := ["#3b82f6", "#10b981", "#f59e0b", "#ef4444", "#8b5cf6"]

  /** One slice of the service pie chart. */
  datatype Slice = Slice(name: string, value: int, color: string)

  /**
   * `serviceData`: one slice per service family that occurs, in order of first
   * occurrence, with its share of all items as a rounded percentage.
   */
  function ServiceData(orders: seq<RepairOrder>): (slices: seq<Slice>)
    ensures slices == Shares(ServicePairs(AllItems(orders)))
    ensures |AllItems(orders)| == 0 ==> slices == []
    ensures forall i :: 0 <= i < |slices| ==>
      slices[i].value == Percent(FamilyCount(AllItems(orders), slices[i].name) as real, |AllItems(orders)|)
  {
    var items := AllItems(orders);
    var slices := Shares(ServicePairs(items));
    forall i | 0 <= i < |slices|
      ensures slices[i].value == Percent(FamilyCount(items, slices[i].name) as real, |items|)
    {
      ServiceCountIsFamilyCount(items, slices[i].name);
    }
    slices
  }

  /** The JavaScript divides by the sum of the counts, which is the number of items. */
  lemma ServiceTotalIsItemCount(pairs: seq<(string, real)>)
    requires forall i :: 0 <= i < |pairs| ==> pairs[i].1 == 1.0
    ensures SumBy(GroupSum(pairs), Second) == |pairs| as real
  {
    SumOfOnes(pairs);
  }

  /** `Math.round((count / total) * 100)`. */
  function Percent(count: real, total: nat): (p: int)
    requires total > 0
    ensures 1.0 <= count <= total as real ==> 0 <= p <= 100
    ensures p as real - 0.5 <= count / total as real * 100.0 < p as real + 0.5
  {
    assert 1.0 <= count <= total as real ==> 0.0 < count / total as real <= 1.0;
    Round(count / total as real * 100.0)
  }

  /**
   * The slices for a list of `(name, 1)` pairs: one per distinct name, in order
   * of first appearance, holding the name's share of all pairs as a rounded
   * percentage.
   */
  function Shares(pairs: seq<(string, real)>): (slices: seq<Slice>)
    requires forall i :: 0 <= i < |pairs| ==> pairs[i].1 == 1.0
    ensures |slices| == |Distinct(KeysOf(pairs))|
    ensures |slices| > 0 ==> |pairs| > 0
    ensures forall i :: 0 <= i < |slices| ==>
      && slices[i].name == Distinct(KeysOf(pairs))[i]
      && slices[i].value == Percent(SumFor(pairs, slices[i].name), |pairs|)
      && slices[i].color == Colors[i % 5]
    ensures forall i :: 0 <= i < |slices| ==> 0 <= slices[i].value <= 100
  {
    var counts := GroupSum(pairs);
    SharesBounded(pairs, counts);
    seq(|counts|, i requires 0 <= i < |counts| =>
      Slice(counts[i].0, Percent(counts[i].1, |pairs|), Colors[i % 5]))
  }

  lemma SharesBounded(pairs: seq<(string, real)>, counts: seq<(string, real)>)
    requires forall i :: 0 <= i < |pairs| ==> pairs[i].1 == 1.0
    requires counts == GroupSum(pairs)
    ensures |counts| <= |pairs|
    ensures forall i :: 0 <= i < |counts| ==> counts[i].0 == Distinct(KeysOf(pairs))[i]
    ensures forall i :: 0 <= i < |counts| ==> 1.0 <= counts[i].1 <= |pairs| as real
  {
    forall i | 0 <= i < |counts|
      ensures counts[i].0 == Distinct(KeysOf(pairs))[i]
      ensures 1.0 <= counts[i].1 <= |pairs| as real
    {
      assert counts[i].0 == KeysOf(counts)[i];
      assert counts[i].0 in KeysOf(pairs);
      SumForCounts(pairs, counts[i].0);
    }
  }

  // ----- rankings -------------------------------------------------------------

  /**
   * The amount a customer is ranked by. `None` stands for a `null` total,
   * which the subtraction in the comparator reads as 0.
   */
  function Spent(c: Customer): real { c.totalSpent.GetOr(0.0) }

  datatype TopCustomer = TopCustomer(name: string, total: Option<real>, visits: int)

  function Summary(c: Customer): TopCustomer
  {
    TopCustomer(c.name, c.totalSpent, c.appointmentsCount)
  }

  /** `topCustomers`: the five customers who spent most, most first. */
  function TopCustomers(customers: seq<Customer>): (r: seq<TopCustomer>)
    ensures |r| == Min(5, |customers|)
    ensures forall i, j :: 0 <= i < j < |r| ==> r[i].total.GetOr(0.0) >= r[j].total.GetOr(0.0)
    ensures forall i :: 0 <= i < |r| ==> exists c :: c in customers && r[i] == Summary(c)
    ensures forall c :: c in customers && Summary(c) !in r ==>
      forall i :: 0 <= i < |r| ==> r[i].total.GetOr(0.0) >= Spent(c)
    ensures multiset(r) <= multiset(Map(customers, Summary))
  {
    var top := TopBy(customers, Spent, 5);
    var r := Map(top, Summary);
    TopCustomersRows(customers, top, r);
    assert forall i :: 0 <= i < |r| ==> top[i] in customers && r[i] == Summary(top[i]);
    MapSubMultiset(top, customers, Summary);
    r
  }

  lemma TopCustomersRows(customers: seq<Customer>, top: seq<Customer>, r: seq<TopCustomer>)
    requires top == TopBy(customers, Spent, 5)
    requires |r| == |top| && forall i :: 0 <= i < |top| ==> r[i] == Summary(top[i])
    ensures |r| == Min(5, |customers|)
    ensures forall i, j :: 0 <= i < j < |r| ==> r[i].total.GetOr(0.0) >= r[j].total.GetOr(0.0)
    ensures forall i :: 0 <= i < |r| ==> top[i] in customers
    ensures forall c :: c in customers && Summary(c) !in r ==>
      forall i :: 0 <= i < |r| ==> r[i].total.GetOr(0.0) >= Spent(c)
  {
    forall i, j | 0 <= i < j < |r|
      ensures r[i].total.GetOr(0.0) >= r[j].total.GetOr(0.0)
    {
      assert Spent(top[i]) >= Spent(top[j]);
    }
    forall i | 0 <= i < |r|
      ensures top[i] in customers
    {
      assert top[i] in top;
    }
    forall c, i | c in customers && Summary(c) !in r && 0 <= i < |r|
      ensures r[i].total.GetOr(0.0) >= Spent(c)
    {
      assert c !in top;
      assert top[i] in top;
    }
  }

  datatype StockRow = StockRow(item: string, stock: int)

  function Stock(item: InventoryItem): real { item.quantity as real }

  function Row(item: InventoryItem): StockRow { StockRow(item.name, item.quantity) }

  /** `inventoryMovement`: the five items with the most stock, most first. */
  function InventoryMovement(items: seq<InventoryItem>): (r: seq<StockRow>)
    ensures |r| == Min(5, |items|)
    ensures forall i, j :: 0 <= i < j < |r| ==> r[i].stock >= r[j].stock
    ensures forall i :: 0 <= i < |r| ==> exists x :: x in items && r[i] == Row(x)
    ensures forall x :: x in items && Row(x) !in r ==> forall i :: 0 <= i < |r| ==> r[i].stock >= x.quantity
    ensures multiset(r) <= multiset(Map(items, Row))
  {
    var top := TopBy(items, Stock, 5);
    var r := Map(top, Row);
    InventoryMovementRows(items, top, r);
    assert forall i :: 0 <= i < |r| ==> top[i] in items && r[i] == Row(top[i]);
    MapSubMultiset(top, items, Row);
    r
  }

  lemma InventoryMovementRows(items: seq<InventoryItem>, top: seq<InventoryItem>, r: seq<StockRow>)
    requires top == TopBy(items, Stock, 5)
    requires |r| == |top| && forall i :: 0 <= i < |top| ==> r[i] == Row(top[i])
    ensures |r| == Min(5, |items|)
    ensures forall i, j :: 0 <= i < j < |r| ==> r[i].stock >= r[j].stock
    ensures forall i :: 0 <= i < |r| ==> top[i] in items
    ensures forall x :: x in items && Row(x) !in r ==> forall i :: 0 <= i < |r| ==> r[i].stock >= x.quantity
  {
    forall i, j | 0 <= i < j < |r|
      ensures r[i].stock >= r[j].stock
    {
      assert Stock(top[i]) >= Stock(top[j]);
    }
    forall i | 0 <= i < |r|
      ensures top[i] in items
    {
      assert top[i] in top;
    }
    forall x, i | x in items && Row(x) !in r && 0 <= i < |r|
      ensures r[i].stock >= x.quantity
    {
      assert x !in top;
      StockAtLeast(items, top, x, top[i]);
    }
  }

  lemma StockAtLeast(items: seq<InventoryItem>, top: seq<InventoryItem>, x: InventoryItem, y: InventoryItem)
    requires top == TopBy(items, Stock, 5)
    requires x in items && x !in top && y in top
    ensures y.quantity >= x.quantity
  {
    assert Stock(y) >= Stock(x);
  }

  // ----- monthly revenue ------------------------------------------------------

  datatype MonthRevenue = MonthRevenue(month: string, ingresos: real, gastos: int)

  /** One `(month, contribution)` pair per invoice; `monthOf` is the locale's short month of a date. */
  function RevenuePairs(invoices: seq<Invoice>, monthOf: string -> string): (pairs: seq<(string, real)>)
    ensures |pairs| == |invoices|
    ensures forall i :: 0 <= i < |invoices| ==> pairs[i] == (monthOf(invoices[i].issueDate), PaidTotal(invoices[i]))
  {
    seq(|invoices|, i requires 0 <= i < |invoices| => (monthOf(invoices[i].issueDate), PaidTotal(invoices[i])))
  }

  /**
   * `revenueData`: one bucket per month that has any invoice, in order of first
   * appearance, holding that month's paid total and 70% of it as expenses.
   */
  function RevenueData(invoices: seq<Invoice>, monthOf: string -> string): (rows: seq<MonthRevenue>)
    ensures |rows| == |Distinct(KeysOf(RevenuePairs(invoices, monthOf)))|
    ensures forall i :: 0 <= i < |rows| ==>
      && rows[i].month == Capitalize(Distinct(KeysOf(RevenuePairs(invoices, monthOf)))[i])
      && rows[i].ingresos == SumFor(RevenuePairs(invoices, monthOf), Distinct(KeysOf(RevenuePairs(invoices, monthOf)))[i])
      && rows[i].gastos == Expenses(rows[i].ingresos)
  {
    var groups := GroupSum(RevenuePairs(invoices, monthOf));
    GroupKeys(RevenuePairs(invoices, monthOf));
    seq(|groups|, i requires 0 <= i < |groups| =>
      MonthRevenue(Capitalize(groups[i].0), groups[i].1, Expenses(groups[i].1)))
  }

  /** The estimated expenses of a month: 70% of its income, rounded. */
  function Expenses(ingresos: real): (g: int)
    ensures ingresos >= 0.0 ==> 0 <= g && g as real <= ingresos * 0.7 + 0.5
    ensures ingresos == 0.0 ==> g == 0
    ensures g as real - 0.5 <= ingresos * 0.7 < g as real + 0.5
  {
    Round(ingresos * 0.7)
  }

  function Ingresos(row: MonthRevenue): real { row.ingresos }

  /** The monthly buckets split the headline revenue: their incomes add up to it. */
  lemma {:induction false} RevenueBucketsAddUp(invoices: seq<Invoice>, monthOf: string -> string)
    ensures SumBy(RevenueData(invoices, monthOf), Ingresos) == ComputeStatistics(invoices, []).totalRevenue
  {
    var pairs := RevenuePairs(invoices, monthOf);
    var groups := GroupSum(pairs);
    var rows := RevenueData(invoices, monthOf);
    SumByMatch(rows, groups);
    assert SumBy(pairs, Second) == SumBy(invoices, PaidTotal) by {
      PairsSum(invoices, monthOf);
    }
  }

  lemma {:induction false} SumByMatch(rows: seq<MonthRevenue>, groups: seq<(string, real)>)
    requires |rows| == |groups|
    requires forall i :: 0 <= i < |rows| ==> rows[i].ingresos == groups[i].1
    ensures SumBy(rows, Ingresos) == SumBy(groups, Second)
  {
    if |rows| > 0 {
      SumByMatch(rows[1..], groups[1..]);
    }
  }

  lemma {:induction false} PairsSum(invoices: seq<Invoice>, monthOf: string -> string)
    ensures SumBy(RevenuePairs(invoices, monthOf), Second) == SumBy(invoices, PaidTotal)
  {
    if |invoices| > 0 {
      PairsSum(invoices[1..], monthOf);
      assert RevenuePairs(invoices, monthOf)[1..] == RevenuePairs(invoices[1..], monthOf);
    }
  }

  /** A month whose invoices are all unpaid still gets a bucket, with no income and no expenses. */
  lemma UnpaidMonthIsZero(invoices: seq<Invoice>, monthOf: string -> string, i: nat)
    requires i < |RevenueData(invoices, monthOf)|
    requires forall j :: 0 <= j < |invoices| ==>
      monthOf(invoices[j].issueDate) == Distinct(KeysOf(RevenuePairs(invoices, monthOf)))[i] ==> !IsPaid(invoices[j])
    ensures RevenueData(invoices, monthOf)[i].ingresos == 0.0
    ensures RevenueData(invoices, monthOf)[i].gastos == 0
  {
    SumForZero(RevenuePairs(invoices, monthOf), Distinct(KeysOf(RevenuePairs(invoices, monthOf)))[i]);
  }

  // ----- stock badges ---------------------------------------------------------

  datatype Badge = Low | Medium | Optimal

  function BadgeLabel(b: Badge): string
  {
    match b
    case Low => "Bajo"
    case Medium => "Medio"
    case Optimal => "Óptimo"
  }

  /** The badge shown next to an item's stock. */
  function StockBadge(stock: int): (b: Badge)
    ensures b == Low <==> stock < 5
    ensures b == Medium <==> 5 <= stock < 10
    ensures b == Optimal <==> stock >= 10
  {
    if stock < 5 then Low else if stock < 10 then Medium else Optimal
  }

  function Rank(b: Badge): nat
  {
    match b
    case Low => 0
    case Medium => 1
    case Optimal => 2
  }

  /** More stock never earns a worse badge. */
  lemma StockBadgeMonotone(a: int, b: int)
    requires a <= b
    ensures Rank(StockBadge(a)) <= Rank(StockBadge(b))
  {
  }
}
