/** The dashboard's summary cards, upcoming appointments and alert panel. */
module DashboardGrid {
  import opened Wrappers
  import opened Seqs
  import opened Text
  import opened Entities
  import Reports

  predicate IsToday(a: Appointment, today: string) { StartsWith(a.appointmentDate, today) }

  /** `todayAppointments`: appointments whose date-time starts with today's date. */
  function TodayAppointments(appointments: seq<Appointment>, today: string): (r: seq<Appointment>)
    ensures forall a :: a in r <==> a in appointments && StartsWith(a.appointmentDate, today)
    ensures IsSubsequence(r, appointments)
    ensures forall a :: multiset(r)[a] == if StartsWith(a.appointmentDate, today) then multiset(appointments)[a] else 0
  {
    Filter(appointments, a => IsToday(a, today))
  }

  predicate IsActive(o: RepairOrder) { o.status == "in_progress" || o.status == "pending" }

  /** `activeOrders`: orders in progress or pending. */
  function ActiveOrders(orders: seq<RepairOrder>): (r: seq<RepairOrder>)
    ensures forall o :: o in r <==> o in orders && (o.status == "in_progress" || o.status == "pending")
    ensures IsSubsequence(r, orders)
    ensures forall o :: multiset(r)[o] ==
             if o.status == "in_progress" || o.status == "pending" then multiset(orders)[o] else 0
  {
    Filter(orders, IsActive)
  }

  /** `lowStockItems`: items strictly under their minimum. */
  function LowStockItems(items: seq<InventoryItem>): (r: seq<InventoryItem>)
    ensures forall x :: x in r <==> x in items && x.quantity < x.minQuantity
    ensures IsSubsequence(r, items)
    ensures forall x :: multiset(r)[x] == if x.quantity < x.minQuantity then multiset(items)[x] else 0
  {
    Filter(items, BelowMinimum)
  }

  /** What an invoice adds to today's revenue. */
  function TodayContribution(inv: Invoice, today: string): real
  {
    if inv.status == "paid" && inv.issueDate == today then inv.total else 0.0
  }

  predicate PaidToday(inv: Invoice, today: string) { inv.status == "paid" && inv.issueDate == today }

  /** `todayRevenue`: the total of the invoices paid and issued today. */
  function TodayRevenue(invoices: seq<Invoice>, today: string): (r: real)
    ensures r == SumBy(invoices, inv => TodayContribution(inv, today))
  {
    TodayRevenueIsContributions(invoices, today);
    SumBy(Filter(invoices, inv => PaidToday(inv, today)), Reports.InvoiceTotal)
  }

  lemma {:induction false} TodayRevenueIsContributions(invoices: seq<Invoice>, today: string)
    ensures SumBy(Filter(invoices, inv => PaidToday(inv, today)), Reports.InvoiceTotal)
         == SumBy(invoices, inv => TodayContribution(inv, today))
  {
    if |invoices| > 0 {
      var first, rest := invoices[0], invoices[1..];
      var kept := Filter(rest, inv => PaidToday(inv, today));
      TodayRevenueIsContributions(rest, today);
      if PaidToday(first, today) {
        assert Filter(invoices, inv => PaidToday(inv, today)) == [first] + kept;
        assert ([first] + kept)[1..] == kept;
      } else {
        assert Filter(invoices, inv => PaidToday(inv, today)) == kept;
      }
    }
  }

  /** With no negative totals, today's revenue never exceeds the revenue of all paid invoices. */
  lemma {:induction false} TodayRevenueAtMostTotal(invoices: seq<Invoice>, today: string)
    requires forall i :: 0 <= i < |invoices| ==> invoices[i].total >= 0.0
    ensures TodayRevenue(invoices, today) <= SumBy(invoices, Reports.PaidTotal)
  {
    if |invoices| > 0 {
      TodayRevenueAtMostTotal(invoices[1..], today);
    }
  }

  predicate IsSoon(a: Appointment, today: string, tomorrow: string)
  {
    StartsWith(a.appointmentDate, today) || StartsWith(a.appointmentDate, tomorrow)
  }

  /**
   * `upcomingAppointments`: the first three appointments dated today or
   * tomorrow, earliest first; `timeOf` is the instant a date-time string denotes.
   */
  function Upcoming(appointments: seq<Appointment>, today: string, tomorrow: string, timeOf: string -> real)
    : (r: seq<Appointment>)
    ensures |r| == Min(3, |Filter(appointments, a => IsSoon(a, today, tomorrow))|)
    ensures forall a :: a in r ==> a in appointments && IsSoon(a, today, tomorrow)
    ensures forall i, j :: 0 <= i < j < |r| ==> timeOf(r[i].appointmentDate) <= timeOf(r[j].appointmentDate)
    ensures forall a, b :: a in appointments && IsSoon(a, today, tomorrow) && a !in r && b in r ==>
      timeOf(b.appointmentDate) <= timeOf(a.appointmentDate)
    ensures multiset(r) <= multiset(Filter(appointments, a => IsSoon(a, today, tomorrow)))
  {
    var soon := Filter(appointments, a => IsSoon(a, today, tomorrow));
    var r := TopBy(soon, (a: Appointment) => -timeOf(a.appointmentDate), 3);
    EarliestFirst(soon, timeOf, r);
    r
  }

  /** Ranking by minus the time lists the earliest first, and nothing left out is earlier. */
  lemma EarliestFirst(soon: seq<Appointment>, timeOf: string -> real, r: seq<Appointment>)
    requires r == TopBy(soon, (a: Appointment) => -timeOf(a.appointmentDate), 3)
    ensures forall i, j :: 0 <= i < j < |r| ==> timeOf(r[i].appointmentDate) <= timeOf(r[j].appointmentDate)
    ensures forall a, b :: a in soon && a !in r && b in r ==> timeOf(b.appointmentDate) <= timeOf(a.appointmentDate)
  {
    var key := (a: Appointment) => -timeOf(a.appointmentDate);
    forall i, j | 0 <= i < j < |r|
      ensures timeOf(r[i].appointmentDate) <= timeOf(r[j].appointmentDate)
    {
      assert key(r[i]) >= key(r[j]);
    }
    forall a, b | a in soon && a !in r && b in r
      ensures timeOf(b.appointmentDate) <= timeOf(a.appointmentDate)
    {
      assert key(b) >= key(a);
    }
  }

  /** `getStatusText`: Spanish labels for three statuses; any other status is shown as it is. */
  function StatusText(status: string): (t: string)
    ensures status == "confirmed" ==> t == "Confirmada"
    ensures status == "pending" ==> t == "Pendiente"
    ensures status == "cancelled" ==> t == "Cancelada"
    ensures status != "confirmed" && status != "pending" && status != "cancelled" ==> t == status
  {
    match status
    case "confirmed" => "Confirmada"
    case "pending" => "Pendiente"
    case "cancelled" => "Cancelada"
    case _ => status
  }

  /** A label is never translated again. */
  lemma StatusTextIdempotent(status: string)
    ensures StatusText(StatusText(status)) == StatusText(status)
  {
  }

  predicate IsPending(a: Appointment) { a.status == "pending" }

  /** The alert panel: shown when anything needs attention, listing at most 3 items and 2 appointments. */
  datatype Alerts = Alerts(shown: bool, stock: seq<InventoryItem>, appointments: seq<Appointment>)

  function ComputeAlerts(items: seq<InventoryItem>, appointments: seq<Appointment>): (a: Alerts)
    ensures a.shown <==> (exists x :: x in items && x.quantity < x.minQuantity) || (exists p :: p in appointments && p.status == "pending")
    ensures a.stock == Take(LowStockItems(items), 3)
    ensures a.appointments == Take(Filter(appointments, IsPending), 2)
    ensures |a.stock| <= 3 && |a.appointments| <= 2
  {
    var low := LowStockItems(items);
    assert (exists x :: x in items && x.quantity < x.minQuantity) ==> |low| > 0 by {
      if exists x :: x in items && x.quantity < x.minQuantity {
        var x :| x in items && x.quantity < x.minQuantity;
        assert x in low;
      }
    }
    Alerts(|low| > 0 || exists p :: p in appointments && IsPending(p),
           Take(low, 3), Take(Filter(appointments, IsPending), 2))
  }
}
