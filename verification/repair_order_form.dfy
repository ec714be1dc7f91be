/** The repair-order editor: its defaults, line items, running total and payload. */
module RepairOrderForm {
  import opened Wrappers
  import opened Seqs
  import opened Values
  import opened LineItems
  import opened FormFields
  import DbService

  /** The fields a new repair-order form shows. */
  const Defaults: Record := map[
    "order_number" := Str(""), "customer_name" := Str(""), "vehicle_info" := Str(""),
    "description" := Str(""), "status" := Str("pending"), "estimated_cost" := Num(0.0),
    "actual_cost" := Num(0.0), "start_date" := Str(""), "completion_date" := Str(""),
    "notes" := Str("")]

  /** A new order starts pending with both costs at 0. */
  lemma NewOrderDefaults()
    ensures InitFields(None, Defaults)["status"] == Str("pending")
    ensures InitFields(None, Defaults)["estimated_cost"] == Num(0.0)
    ensures InitFields(None, Defaults)["actual_cost"] == Num(0.0)
  {
    NewFormShowsDefaults(Defaults);
  }

  /**
   * The next item being typed; the numbers come straight from the host's
   * parser, so either may be `NaN` (`None`).
   */
  datatype Draft = Draft(description: string, quantity: Option<real>, unitPrice: Option<real>)

  const ResetDraft := Draft("", Some(1.0), Some(0.0))

  datatype Editor = Editor(items: seq<LineItem>, draft: Draft)

  /** The form's item list when it opens: the order's items, or none. */
  function NewEditor(existing: Option<seq<LineItem>>): (e: Editor)
    ensures existing.None? ==> e.items == []
    ensures existing.Some? ==> e.items == existing.value
    ensures e.draft == ResetDraft
  {
    Editor(existing.GetOr([]), ResetDraft)
  }

  /** A draft is accepted when it has a description and a positive quantity and price (`NaN` is not). */
  predicate Acceptable(d: Draft)
  {
    d.description != "" && d.quantity.Some? && d.quantity.value > 0.0 && d.unitPrice.Some? && d.unitPrice.value > 0.0
  }

  /** `handleAddItem`: append the draft under `freshId` and reset it, or do nothing. */
  function AddItem(e: Editor, freshId: int): (r: Editor)
    ensures Acceptable(e.draft) ==>
      && r.items == e.items + [LineItem(freshId, e.draft.description, e.draft.quantity.value, e.draft.unitPrice.value)]
      && r.draft == ResetDraft
    ensures !Acceptable(e.draft) ==> r == e
  {
    match e.draft
    case Draft(d, Some(q), Some(p)) =>
      if d != "" && q > 0.0 && p > 0.0 then Editor(e.items + [LineItem(freshId, d, q, p)], ResetDraft) else e
    case _ => e
  }

  /** The reset draft itself is never accepted: its price is 0. */
  lemma ResetDraftRejected(e: Editor, freshId: int)
    requires e.draft == ResetDraft
    ensures AddItem(e, freshId) == e
  {
  }

  /** `handleRemoveItem`. */
  function RemoveItem(e: Editor, id: int): (r: Editor)
    ensures forall x :: x in r.items <==> x in e.items && x.id != id
    ensures IsSubsequence(r.items, e.items)
    ensures forall x :: multiset(r.items)[x] == if x.id != id then multiset(e.items)[x] else 0
    ensures r.draft == e.draft
  {
    e.(items := RemoveById(e.items, id))
  }

  /** `totalCost`: an accepted add raises it by exactly the new item's amount. */
  lemma AddItemRaisesTotal(e: Editor, freshId: int)
    requires Acceptable(e.draft)
    ensures ItemsTotal(AddItem(e, freshId).items)
         == ItemsTotal(e.items) + e.draft.quantity.value * e.draft.unitPrice.value
    ensures ItemsTotal(AddItem(e, freshId).items) > ItemsTotal(e.items)
  {
    ItemsTotalSnoc(e.items, LineItem(freshId, e.draft.description, e.draft.quantity.value, e.draft.unitPrice.value));
  }

  /** Adding under a fresh id and removing that id again leaves the items as they were. */
  lemma AddThenRemoveItem(e: Editor, freshId: int)
    requires forall i :: 0 <= i < |e.items| ==> e.items[i].id != freshId
    ensures RemoveItem(AddItem(e, freshId), freshId).items == e.items
  {
    if Acceptable(e.draft) {
      AddThenRemove(e.items, LineItem(freshId, e.draft.description, e.draft.quantity.value, e.draft.unitPrice.value));
    } else {
      RemoveAbsentId(e.items, freshId);
    }
  }

  /** `handleSubmit`'s payload: the form fields, the order's id (or `freshId`), and the items; no total. */
  function Payload(fields: Record, existing: Option<Record>, items: seq<LineItem>, freshId: real): (r: Record)
    ensures r.Keys == fields.Keys + {"id", "items"}
    ensures forall k :: k in fields && k != "id" && k != "items" ==> r[k] == fields[k]
    ensures r["id"] == Carry(existing, "id", Num(freshId))
    ensures r["items"].Arr? && DecodeAll(r["items"].elems) == Some(items)
  {
    DecodeAllEncodeAll(items);
    Spread(fields, map["id" := Carry(existing, "id", Num(freshId)), "items" := EncodeAll(items)])
  }

  /** A new order as stored: its form fields minus the copied customer name; no items, no total, no id. */
  lemma StoredNewOrder(fields: Record, items: seq<LineItem>, freshId: real)
    requires fields.Keys == Defaults.Keys
    ensures DbService.RepairOrderInsertRow(Payload(fields, None, items, freshId)) == fields - {"customer_name"}
  {
    assert "id" !in Defaults && "items" !in Defaults;
    assert "customer_phone" !in Defaults && "customer_email" !in Defaults;
    StoredOrder(fields, Payload(fields, None, items, freshId));
  }

  /** Writing a payload built on fields without identity, items or copied contact details. */
  lemma StoredOrder(fields: Record, p: Record)
    requires "id" !in fields && "items" !in fields && "customer_phone" !in fields && "customer_email" !in fields
    requires p.Keys == fields.Keys + {"id", "items"}
    requires forall k :: k in fields ==> p[k] == fields[k]
    ensures DbService.RepairOrderInsertRow(p) == fields - {"customer_name"}
  {
    var row := DbService.RepairOrderInsertRow(p);
    assert row.Keys == (fields - {"customer_name"}).Keys;
  }
}
