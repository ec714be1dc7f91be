/**
 * The data-access layer: what each gateway operation sends to the hosted
 * store, and how rows read back are flattened with their joined customer.
 * The store itself is outside the model; its answer to a query is passed in
 * as a `Reply`.
 */
module DbService {
  import opened Wrappers
  import opened Values
  import opened Seqs

  /** The store's answer to a query, `{ data, error }`. */
  datatype Reply<T> = Reply(data: Option<T>, error: Option<string>)

  /** What a gateway operation throws. */
  datatype GatewayError = StoreError(message: string) | BadItemsJson

  const UnknownCustomer := "Cliente desconocido"

  /** Fields copied from the joined customer onto appointments, orders and invoices. */
  const CustomerView: set<string> := {"customer_name", "customer_phone", "customer_email"}

  /** Counters derived from a customer's appointments and invoices. */
  const CustomerCounters: set<string> := {"appointments_count", "total_spent"}

  /** Every field that is derived or denormalised and must never be written. */
  const NeverWritten: set<string> := CustomerView + CustomerCounters

  // ----- reads -------------------------------------------------------------

  /** A list query: the store's error is re-thrown, missing data reads as `[]`. */
  function ListRows(reply: Reply<seq<Record>>): (r: Result<seq<Record>, GatewayError>)
    ensures reply.error.Some? <==> r.Err?
    ensures reply.error.Some? ==> r.error == StoreError(reply.error.value)
    ensures reply.error.None? && reply.data.None? ==> r == Ok([])
    ensures reply.error.None? && reply.data.Some? ==> r == Ok(reply.data.value)
  {
    match reply.error
    case Some(e) => Err(StoreError(e))
    case None => Ok(reply.data.GetOr([]))
  }

  function GetCustomers(reply: Reply<seq<Record>>): Result<seq<Record>, GatewayError>
  {
    ListRows(reply)
  }

  function GetInventory(reply: Reply<seq<Record>>): Result<seq<Record>, GatewayError>
  {
    ListRows(reply)
  }

  /**
   * `{...row, customer_id: c?.id, customer_name: c?.name || "Cliente desconocido",
   * customer_phone: c?.phone || phoneDefault, customer_email: c?.email || ""}`
   * where `c` is the joined customer; with no `phoneDefault` the phone is left alone.
   */
  function FlattenCustomer(row: Record, phoneDefault: Option<string>): (r: Record)
    ensures var c := Field(row, "customer");
      && ("customer_id" in r <==> Prop(c, "id").Some?)
      && (Prop(c, "id").Some? ==> r["customer_id"] == Prop(c, "id").value)
      && "customer_name" in r && "customer_email" in r
      && (IsTruthy(Prop(c, "name")) ==> r["customer_name"] == Prop(c, "name").value)
      && (!IsTruthy(Prop(c, "name")) ==> r["customer_name"] == Str(UnknownCustomer))
      && (IsTruthy(Prop(c, "email")) ==> r["customer_email"] == Prop(c, "email").value)
      && (!IsTruthy(Prop(c, "email")) ==> r["customer_email"] == Str(""))
      && (phoneDefault.Some? ==> "customer_phone" in r)
      && (phoneDefault.Some? && IsTruthy(Prop(c, "phone")) ==> r["customer_phone"] == Prop(c, "phone").value)
      && (phoneDefault.Some? && !IsTruthy(Prop(c, "phone")) ==> r["customer_phone"] == Str(phoneDefault.value))
    ensures Truthy(r["customer_name"])
    ensures forall k :: k in row && k !in CustomerView && k != "customer_id" ==> k in r && r[k] == row[k]
    ensures forall k :: k in r ==> k in row || k in CustomerView || k == "customer_id"
    ensures phoneDefault.None? ==> Field(r, "customer_phone") == Field(row, "customer_phone")
  {
    var c := Field(row, "customer");
    var withId := SetOrDrop(row, "customer_id", Prop(c, "id"));
    var named := withId["customer_name" := Or(Prop(c, "name"), Str(UnknownCustomer))];
    var phoned := match phoneDefault
      case Some(d) => named["customer_phone" := Or(Prop(c, "phone"), Str(d))]
      case None => named;
    phoned["customer_email" := Or(Prop(c, "email"), Str(""))]
  }

  /** An appointment row read back: a missing phone shows as "N/A". */
  function FlattenAppointment(row: Record): Record
  {
    FlattenCustomer(row, Some("N/A"))
  }

  /** A repair-order row read back: a missing phone shows as "". */
  function FlattenRepairOrder(row: Record): Record
  {
    FlattenCustomer(row, Some(""))
  }

  /**
   * An invoice row read back: no phone is copied, and `items` stored as text
   * is decoded with `decode` (`JSON.parse`, which fails with `None`); any other
   * `items` value is kept, or becomes `[]` when it is falsy.
   */
  function FlattenInvoice(row: Record, decode: string -> Option<Value>): (r: Option<Record>)
    ensures var items := Field(row, "items");
      && (r.None? <==> items.Some? && items.value.Str? && decode(items.value.s).None?)
      && (r.Some? ==> "items" in r.value)
      && (r.Some? && items.Some? && items.value.Str? ==> r.value["items"] == decode(items.value.s).value)
      && (r.Some? && !(items.Some? && items.value.Str?) ==> r.value["items"] == Or(items, Arr([])))
    ensures r.Some? ==> "customer_name" in r.value && Truthy(r.value["customer_name"])
    ensures r.Some? ==> Field(r.value, "customer_phone") == Field(row, "customer_phone")
    ensures r.Some? ==> forall k :: k in row && k !in CustomerView && k != "customer_id" && k != "items" ==>
      k in r.value && r.value[k] == row[k]
    ensures var c := Field(row, "customer");
      && (r.Some? ==> ("customer_id" in r.value <==> Prop(c, "id").Some?))
      && (r.Some? && Prop(c, "id").Some? ==> r.value["customer_id"] == Prop(c, "id").value)
      && (r.Some? ==> r.value["customer_name"] == Or(Prop(c, "name"), Str(UnknownCustomer)))
      && (r.Some? ==> "customer_email" in r.value && r.value["customer_email"] == Or(Prop(c, "email"), Str("")))
    ensures r.Some? ==> r.value.Keys == FlattenCustomer(row, None).Keys + {"items"}
    ensures r.Some? ==> forall k :: k in r.value && k != "items" ==> r.value[k] == FlattenCustomer(row, None)[k]
  {
    match DecodedItems(Field(row, "items"), decode)
    case None => None
    case Some(v) => Some(FlattenCustomer(row, None)["items" := v])
  }

  /** `typeof items === "string" ? JSON.parse(items) : items || []`, failing when the text does not parse. */
  function DecodedItems(items: Option<Value>, decode: string -> Option<Value>): (d: Option<Value>)
    ensures d.None? <==> items.Some? && items.value.Str? && decode(items.value.s).None?
    ensures d.Some? && items.Some? && items.value.Str? ==> d.value == decode(items.value.s).value
    ensures d.Some? && !(items.Some? && items.value.Str?) ==> d.value == Or(items, Arr([]))
  {
    match items
    case Some(Str(text)) => decode(text)
    case other => Some(Or(other, Arr([])))
  }

  /** A joined list query: every row is flattened. */
  function GetJoined(reply: Reply<seq<Record>>, phoneDefault: string): (r: Result<seq<Record>, GatewayError>)
    ensures reply.error.Some? ==> r == Err(StoreError(reply.error.value))
    ensures reply.error.None? ==> r.Ok? && |r.value| == |reply.data.GetOr([])|
    ensures reply.error.None? ==> forall i :: 0 <= i < |r.value| ==>
      r.value[i] == FlattenCustomer(reply.data.GetOr([])[i], Some(phoneDefault))
  {
    match ListRows(reply)
    case Err(e) => Err(e)
    case Ok(rows) => Ok(seq(|rows|, i requires 0 <= i < |rows| => FlattenCustomer(rows[i], Some(phoneDefault))))
  }

  function GetAppointments(reply: Reply<seq<Record>>): Result<seq<Record>, GatewayError>
  {
    GetJoined(reply, "N/A")
  }

  function GetRepairOrders(reply: Reply<seq<Record>>): Result<seq<Record>, GatewayError>
  {
    GetJoined(reply, "")
  }

  /** Invoices read back; one undecodable `items` text fails the whole query. */
  function FlattenInvoices(rows: seq<Record>, decode: string -> Option<Value>): (r: Result<seq<Record>, GatewayError>)
    ensures r.Ok? <==> forall i :: 0 <= i < |rows| ==> FlattenInvoice(rows[i], decode).Some?
    ensures r.Ok? ==> |r.value| == |rows|
    ensures r.Ok? ==> forall i :: 0 <= i < |rows| ==> r.value[i] == FlattenInvoice(rows[i], decode).value
    ensures r.Err? ==> r.error == BadItemsJson
  {
    match MapAll(rows, (row: Record) => FlattenInvoice(row, decode))
    case None => Err(BadItemsJson)
    case Some(flat) => Ok(flat)
  }

  function GetInvoices(reply: Reply<seq<Record>>, decode: string -> Option<Value>): (r: Result<seq<Record>, GatewayError>)
    ensures reply.error.Some? ==> r == Err(StoreError(reply.error.value))
    ensures reply.error.None? ==> r == FlattenInvoices(reply.data.GetOr([]), decode)
  {
    match ListRows(reply)
    case Err(e) => Err(e)
    case Ok(rows) => FlattenInvoices(rows, decode)
  }

  // ----- writes ------------------------------------------------------------

  /** The row `createCustomer` inserts. */
  function CustomerInsertRow(customer: Record): (row: Record)
    ensures row.Keys == customer.Keys - {"id", "appointments_count", "total_spent", "created_at"}
    ensures forall k :: k in row ==> row[k] == customer[k]
  {
    Omit(customer, {"id", "created_at"} + CustomerCounters)
  }

  /** The row `updateCustomer` sends. */
  function CustomerUpdateRow(customer: Record): (row: Record)
    ensures row.Keys == customer.Keys - {"appointments_count", "total_spent"}
    ensures forall k :: k in row ==> row[k] == customer[k]
  {
    Omit(customer, CustomerCounters)
  }

  /** The row `createAppointment` inserts. */
  function AppointmentInsertRow(appointment: Record): (row: Record)
    ensures row.Keys == appointment.Keys - {"id", "customer_name", "customer_phone", "customer_email"}
    ensures forall k :: k in row ==> row[k] == appointment[k]
  {
    Omit(appointment, {"id"} + CustomerView)
  }

  /** The row `updateAppointment` sends. */
  function AppointmentUpdateRow(appointment: Record): (row: Record)
    ensures row.Keys == appointment.Keys - {"customer_name", "customer_phone", "customer_email"}
    ensures forall k :: k in row ==> row[k] == appointment[k]
  {
    Omit(appointment, CustomerView)
  }

  /** The row `createInventoryItem` inserts. */
  function InventoryInsertRow(item: Record): (row: Record)
    ensures row.Keys == item.Keys - {"id"}
    ensures forall k :: k in row ==> row[k] == item[k]
  {
    Omit(item, {"id"})
  }

  /** The row `updateInventoryItem` sends: the record as given. */
  function InventoryUpdateRow(item: Record): (row: Record)
    ensures row == item
  {
    item
  }

  /** The row `createRepairOrder` inserts: line items are never written. */
  function RepairOrderInsertRow(order: Record): (row: Record)
    ensures row.Keys == order.Keys - {"id", "customer_name", "customer_phone", "customer_email", "items"}
    ensures forall k :: k in row ==> row[k] == order[k]
  {
    Omit(order, {"id", "items"} + CustomerView)
  }

  /** The row `updateRepairOrder` sends. */
  function RepairOrderUpdateRow(order: Record): (row: Record)
    ensures row.Keys == order.Keys - {"customer_name", "customer_phone", "customer_email", "items"}
    ensures forall k :: k in row ==> row[k] == order[k]
  {
    Omit(order, {"items"} + CustomerView)
  }

  /** The row `createInvoice` inserts: the totals stay, the items and customer view go. */
  function InvoiceInsertRow(invoice: Record): (row: Record)
    ensures row.Keys == invoice.Keys - {"id", "customer_name", "customer_email", "items"}
    ensures forall k :: k in row ==> row[k] == invoice[k]
  {
    Omit(invoice, {"id", "customer_name", "customer_email", "items"})
  }

  /** The row `updateInvoice` sends. */
  function InvoiceUpdateRow(invoice: Record): (row: Record)
    ensures row.Keys == invoice.Keys - {"customer_name", "customer_email", "items"}
    ensures forall k :: k in row ==> row[k] == invoice[k]
  {
    Omit(invoice, {"customer_name", "customer_email", "items"})
  }

  /**
   * Customer rows never carry the counters; appointment and repair-order rows
   * never carry the customer view; invoice rows drop the customer's name and
   * e-mail but keep a `customer_phone` they are given.
   */
  lemma WritesNeverCarryDerivedFields(r: Record)
    ensures forall k :: k in CustomerCounters ==> k !in CustomerInsertRow(r) && k !in CustomerUpdateRow(r)
    ensures forall k :: k in CustomerView ==>
      && k !in AppointmentInsertRow(r) && k !in AppointmentUpdateRow(r)
      && k !in RepairOrderInsertRow(r) && k !in RepairOrderUpdateRow(r)
    ensures "items" !in RepairOrderInsertRow(r) && "items" !in RepairOrderUpdateRow(r)
    ensures "items" !in InvoiceInsertRow(r) && "items" !in InvoiceUpdateRow(r)
    ensures "customer_name" !in InvoiceInsertRow(r) && "customer_email" !in InvoiceInsertRow(r)
    ensures "customer_name" !in InvoiceUpdateRow(r) && "customer_email" !in InvoiceUpdateRow(r)
    ensures "customer_phone" in r ==>
      && "customer_phone" in InvoiceInsertRow(r) && InvoiceInsertRow(r)["customer_phone"] == r["customer_phone"]
      && "customer_phone" in InvoiceUpdateRow(r) && InvoiceUpdateRow(r)["customer_phone"] == r["customer_phone"]
  {
  }

  /** Inserting differs from updating only by also dropping the identity (and for customers, the creation date). */
  lemma InsertIsUpdateWithoutIdentity(r: Record)
    ensures CustomerInsertRow(r) == Omit(CustomerUpdateRow(r), {"id", "created_at"})
    ensures AppointmentInsertRow(r) == Omit(AppointmentUpdateRow(r), {"id"})
    ensures RepairOrderInsertRow(r) == Omit(RepairOrderUpdateRow(r), {"id"})
    ensures InvoiceInsertRow(r) == Omit(InvoiceUpdateRow(r), {"id"})
    ensures InventoryInsertRow(r) == Omit(InventoryUpdateRow(r), {"id"})
  {
    OmitTwice(r, CustomerCounters, {"id", "created_at"});
    assert CustomerCounters + {"id", "created_at"} == {"id", "created_at"} + CustomerCounters;
    OmitTwice(r, CustomerView, {"id"});
    assert CustomerView + {"id"} == {"id"} + CustomerView;
    OmitTwice(r, {"items"} + CustomerView, {"id"});
    assert {"items"} + CustomerView + {"id"} == {"id", "items"} + CustomerView;
    OmitTwice(r, {"customer_name", "customer_email", "items"}, {"id"});
    assert {"customer_name", "customer_email", "items"} + {"id"} == {"id", "customer_name", "customer_email", "items"};
  }

  /**
   * Reading an appointment and writing it straight back changes nothing in the
   * stored row, as long as the row's customer_id is the joined customer's id and
   * the row holds no customer view fields of its own.
   */
  lemma {:induction false} AppointmentReadWriteRoundTrip(row: Record)
    requires forall k :: k in CustomerView ==> k !in row
    requires Prop(Field(row, "customer"), "id") == Field(row, "customer_id")
    ensures AppointmentUpdateRow(FlattenAppointment(row)) == row
    ensures RepairOrderUpdateRow(FlattenRepairOrder(row)) == Omit(row, {"items"})
  {
    AppointmentRoundTrip(row);
    RepairOrderRoundTrip(row);
  }

  lemma AppointmentRoundTrip(row: Record)
    requires forall k :: k in CustomerView ==> k !in row
    requires Prop(Field(row, "customer"), "id") == Field(row, "customer_id")
    ensures AppointmentUpdateRow(FlattenAppointment(row)) == row
  {
    var flat := FlattenAppointment(row);
    assert AppointmentUpdateRow(flat).Keys == row.Keys;
  }

  lemma RepairOrderRoundTrip(row: Record)
    requires forall k :: k in CustomerView ==> k !in row
    requires Prop(Field(row, "customer"), "id") == Field(row, "customer_id")
    ensures RepairOrderUpdateRow(FlattenRepairOrder(row)) == Omit(row, {"items"})
  {
    var flatOrder := FlattenRepairOrder(row);
    assert RepairOrderUpdateRow(flatOrder).Keys == Omit(row, {"items"}).Keys;
  }

  /** The store's answer to a single-row insert or update: the row, or the re-thrown error. */
  function WriteOutcome(reply: Reply<Record>): (r: Result<Option<Record>, GatewayError>)
    ensures reply.error.Some? <==> r.Err?
    ensures reply.error.Some? ==> r.error == StoreError(reply.error.value)
    ensures r.Ok? ==> r.value == reply.data
  {
    match reply.error
    case Some(e) => Err(StoreError(e))
    case None => Ok(reply.data)
  }
}
