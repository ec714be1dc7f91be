/**
 * The shop's entities as the list components, the dashboard and the reports
 * see them, with the joined customer already flattened onto each record.
 * Statuses are kept as text: the screens compare them with arbitrary filter
 * values and echo unknown ones.
 */
module Entities {
  import opened Wrappers
  import opened LineItems

  datatype Customer = Customer(
    id: int, name: string, email: string, phone: string, address: string, city: string,
    postalCode: string, notes: string, createdAt: string, appointmentsCount: int,
    totalSpent: Option<real>)

  datatype Appointment = Appointment(
    id: int, customerName: string, customerPhone: string, appointmentDate: string,
    status: string, description: string, estimatedDuration: real)

  datatype InventoryItem = InventoryItem(
    id: int, name: string, sku: string, category: string, quantity: int, minQuantity: int,
    unitPrice: real, supplier: string, lastRestocked: string, description: string)

  datatype RepairOrder = RepairOrder(
    id: int, orderNumber: string, customerName: string, vehicleInfo: string, description: string,
    status: string, estimatedCost: real, actualCost: Option<real>, startDate: Option<string>,
    completionDate: Option<string>, notes: string, items: Option<seq<LineItem>>)

  datatype Invoice = Invoice(
    id: int, invoiceNumber: string, customerName: string, customerEmail: string, issueDate: string,
    dueDate: string, subtotal: real, tax: real, total: real, status: string, notes: string,
    items: seq<LineItem>)

  /** Low stock on the dashboard, in the header and on the inventory page: strictly under the minimum. */
  predicate BelowMinimum(item: InventoryItem)
  {
    item.quantity < item.minQuantity
  }

  /** Low stock in the inventory list: at or under the minimum. */
  predicate AtOrBelowMinimum(item: InventoryItem)
  {
    item.quantity <= item.minQuantity
  }

  /** The two notions of low stock differ exactly on items holding their minimum. */
  lemma LowStockNotionsDiffer(item: InventoryItem)
    ensures BelowMinimum(item) ==> AtOrBelowMinimum(item)
    ensures AtOrBelowMinimum(item) && !BelowMinimum(item) <==> item.quantity == item.minQuantity
  {
  }

  /** `order.items?.reduce(...) || 0`: an order's cost from its items; none means 0. */
  function OrderTotal(order: RepairOrder): (t: real)
    ensures order.items.None? ==> t == 0.0
    ensures order.items.Some? ==> t == ItemsTotal(order.items.value)
  {
    match order.items
    case None => 0.0
    case Some(items) => ItemsTotal(items)
  }
}
