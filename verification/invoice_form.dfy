/** The invoice editor: line items, the 21% tax, and the payload it submits. */
module InvoiceForm {
  import opened Wrappers
  import opened Seqs
  import opened Values
  import opened LineItems
  import opened FormFields
  import DbService

  const TaxRate: real := 0.21

  /** The fields a new invoice form shows. */
  const Defaults: Record := map[
    "invoice_number" := Str(""), "customer_id" := Str(""), "issue_date" := Str(""),
    "due_date" := Str(""), "status" := Str("pending"), "notes" := Str("")]

  /** Subtotal, tax and total of a list of items. */
  datatype Totals = Totals(subtotal: real, tax: real, total: real)

  function ComputeTotals(items: seq<LineItem>): (t: Totals)
    ensures t.subtotal == ItemsTotal(items)
    ensures t.tax == t.subtotal * 21.0 / 100.0
    ensures t.total == t.subtotal * 121.0 / 100.0
    ensures |items| == 0 ==> t == Totals(0.0, 0.0, 0.0)
  {
    var subtotal := ItemsTotal(items);
    var tax := subtotal * TaxRate;
    Totals(subtotal, tax, subtotal + tax)
  }

  /** With non-negative quantities and prices, 0 <= tax <= total and subtotal <= total. */
  lemma TotalsOrdered(items: seq<LineItem>)
    requires forall i :: 0 <= i < |items| ==> items[i].quantity >= 0.0 && items[i].unitPrice >= 0.0
    ensures var t := ComputeTotals(items); 0.0 <= t.tax <= t.total && t.subtotal <= t.total
  {
    ItemsTotalNonNegative(items);
  }

  /** The three text inputs for the next item. */
  datatype Draft = Draft(description: string, quantity: string, unitPrice: string)

  const EmptyDraft := Draft("", "", "")

  /** The items added so far and the next item being typed. */
  datatype Editor = Editor(items: seq<LineItem>, draft: Draft)

  /** The form's item list when it opens: the invoice's items, or none. */
  function NewEditor(existing: Option<seq<LineItem>>): (e: Editor)
    ensures existing.None? ==> e.items == []
    ensures existing.Some? ==> e.items == existing.value
    ensures e.draft == EmptyDraft
  {
    Editor(existing.GetOr([]), EmptyDraft)
  }

  /** A draft is accepted when it has a description and both numbers parse to positive values. */
  predicate Acceptable(d: Draft, parse: string -> Option<real>)
  {
    && d.description != ""
    && parse(d.quantity).Some? && parse(d.quantity).value > 0.0
    && parse(d.unitPrice).Some? && parse(d.unitPrice).value > 0.0
  }

  /** `handleAddItem`: append the draft under `freshId` and clear it, or do nothing. */
  function AddItem(e: Editor, parse: string -> Option<real>, freshId: int): (r: Editor)
    ensures Acceptable(e.draft, parse) ==>
      && r.items == e.items + [LineItem(freshId, e.draft.description,
                                        parse(e.draft.quantity).value, parse(e.draft.unitPrice).value)]
      && r.draft == EmptyDraft
    ensures !Acceptable(e.draft, parse) ==> r == e
  {
    var d := e.draft;
    if d.description != "" then
      match (parse(d.quantity), parse(d.unitPrice))
      case (Some(q), Some(p)) =>
        if q > 0.0 && p > 0.0 then Editor(e.items + [LineItem(freshId, d.description, q, p)], EmptyDraft)
        else e
      case _ => e
    else e
  }

  /** An accepted item raises the subtotal by its amount, which is positive. */
  lemma AddItemRaisesSubtotal(e: Editor, parse: string -> Option<real>, freshId: int)
    requires Acceptable(e.draft, parse)
    ensures ComputeTotals(AddItem(e, parse, freshId).items).subtotal > ComputeTotals(e.items).subtotal
  {
    var item := LineItem(freshId, e.draft.description, parse(e.draft.quantity).value, parse(e.draft.unitPrice).value);
    ItemsTotalSnoc(e.items, item);
  }

  /** `handleRemoveItem`. */
  function RemoveItem(e: Editor, id: int): (r: Editor)
    ensures forall x :: x in r.items <==> x in e.items && x.id != id
    ensures IsSubsequence(r.items, e.items)
    ensures forall x :: multiset(r.items)[x] == if x.id != id then multiset(e.items)[x] else 0
    ensures r.draft == e.draft
  {
    e.(items := RemoveById(e.items, id))
  }

  /** Adding an item with a fresh id and removing it again leaves the item list as it was. */
  lemma AddThenRemoveItem(e: Editor, parse: string -> Option<real>, freshId: int)
    requires forall i :: 0 <= i < |e.items| ==> e.items[i].id != freshId
    ensures RemoveItem(AddItem(e, parse, freshId), freshId).items == e.items
  {
    if Acceptable(e.draft, parse) {
      AddThenRemove(e.items, LineItem(freshId, e.draft.description,
                                      parse(e.draft.quantity).value, parse(e.draft.unitPrice).value));
    } else {
      RemoveAbsentId(e.items, freshId);
    }
  }

  /** The fields `handleSubmit` adds to the form's own. */
  const Computed: set<string> := {"customer_id", "id", "items", "subtotal", "tax", "total"}

  /**
   * `handleSubmit`'s payload: the form fields, the customer id as a number, the
   * invoice's id (or `freshId` for a new one), the items and their totals.
   */
  function Payload(fields: Record, existing: Option<Record>, items: seq<LineItem>,
                   parse: string -> Option<real>, freshId: real): (r: Record)
    ensures r.Keys == fields.Keys + Computed
    ensures forall k :: k in fields && k !in Computed ==> r[k] == fields[k]
    ensures r["customer_id"] == NumberOf(Field(fields, "customer_id"), parse)
    ensures r["id"] == Carry(existing, "id", Num(freshId))
    ensures r["items"].Arr? && DecodeAll(r["items"].elems) == Some(items)
    ensures r["subtotal"] == Num(ItemsTotal(items))
    ensures r["tax"] == Num(ItemsTotal(items) * 21.0 / 100.0)
    ensures r["total"] == Num(ItemsTotal(items) * 121.0 / 100.0)
  {
    Spread(fields, Computations(fields, existing, items, parse, freshId))
  }

  /** The entries `handleSubmit` writes over the form's fields. */
  function Computations(fields: Record, existing: Option<Record>, items: seq<LineItem>,
                        parse: string -> Option<real>, freshId: real): (over: Record)
    ensures over.Keys == Computed
    ensures over["customer_id"] == NumberOf(Field(fields, "customer_id"), parse)
    ensures over["id"] == Carry(existing, "id", Num(freshId))
    ensures over["items"].Arr? && DecodeAll(over["items"].elems) == Some(items)
    ensures over["subtotal"] == Num(ItemsTotal(items))
    ensures over["tax"] == Num(ItemsTotal(items) * 21.0 / 100.0)
    ensures over["total"] == Num(ItemsTotal(items) * 121.0 / 100.0)
  {
    var t := ComputeTotals(items);
    var over := map[
      "customer_id" := NumberOf(Field(fields, "customer_id"), parse),
      "id" := Carry(existing, "id", Num(freshId)),
      "items" := EncodeAll(items),
      "subtotal" := Num(t.subtotal), "tax" := Num(t.tax), "total" := Num(t.total)];
    ComputedKeys(over, NumberOf(Field(fields, "customer_id"), parse), Carry(existing, "id", Num(freshId)), items, t);
    ComputedEntries(over, NumberOf(Field(fields, "customer_id"), parse), Carry(existing, "id", Num(freshId)), items, t);
    ComputedTotals(over, NumberOf(Field(fields, "customer_id"), parse), Carry(existing, "id", Num(freshId)), items, t);
    over
  }

  lemma ComputedEntries(over: Record, customer: Value, id: Value, items: seq<LineItem>, t: Totals)
    requires over == map[
      "customer_id" := customer, "id" := id, "items" := EncodeAll(items),
      "subtotal" := Num(t.subtotal), "tax" := Num(t.tax), "total" := Num(t.total)]
    ensures over["customer_id"] == customer && over["id"] == id
    ensures over["items"].Arr? && DecodeAll(over["items"].elems) == Some(items)
  {
    assert over["items"] == EncodeAll(items);
    DecodeAllEncodeAll(items);
  }

  lemma ComputedTotals(over: Record, customer: Value, id: Value, items: seq<LineItem>, t: Totals)
    requires t == ComputeTotals(items)
    requires over == map[
      "customer_id" := customer, "id" := id, "items" := EncodeAll(items),
      "subtotal" := Num(t.subtotal), "tax" := Num(t.tax), "total" := Num(t.total)]
    ensures over["subtotal"] == Num(ItemsTotal(items))
    ensures over["tax"] == Num(ItemsTotal(items) * 21.0 / 100.0)
    ensures over["total"] == Num(ItemsTotal(items) * 121.0 / 100.0)
  {
    assert over["subtotal"] == Num(t.subtotal);
    assert over["tax"] == Num(t.tax);
    assert over["total"] == Num(t.total);
  }

  lemma ComputedKeys(over: Record, customer: Value, id: Value, items: seq<LineItem>, t: Totals)
    requires over == map[
      "customer_id" := customer, "id" := id, "items" := EncodeAll(items),
      "subtotal" := Num(t.subtotal), "tax" := Num(t.tax), "total" := Num(t.total)]
    ensures over.Keys == Computed
  {
  }

  /**
   * What the store receives for a new invoice built by this form: the form
   * fields (customer id as a number) with the three totals, but neither the
   * items nor an id.
   */
  lemma StoredNewInvoice(fields: Record, items: seq<LineItem>, parse: string -> Option<real>, freshId: real)
    requires fields.Keys == Defaults.Keys
    ensures DbService.InvoiceInsertRow(Payload(fields, None, items, parse, freshId)).Keys
         == fields.Keys + {"subtotal", "tax", "total"}
    ensures DbService.InvoiceInsertRow(Payload(fields, None, items, parse, freshId))["customer_id"]
         == NumberOf(Field(fields, "customer_id"), parse)
    ensures DbService.InvoiceInsertRow(Payload(fields, None, items, parse, freshId))["subtotal"]
         == Num(ItemsTotal(items))
    ensures DbService.InvoiceInsertRow(Payload(fields, None, items, parse, freshId))["tax"]
         == Num(ItemsTotal(items) * 21.0 / 100.0)
    ensures DbService.InvoiceInsertRow(Payload(fields, None, items, parse, freshId))["total"]
         == Num(ItemsTotal(items) * 121.0 / 100.0)
    ensures forall k :: k in fields && k != "customer_id" ==>
      DbService.InvoiceInsertRow(Payload(fields, None, items, parse, freshId))[k] == fields[k]
  {
    var p := Payload(fields, None, items, parse, freshId);
    DefaultsMeetComputed();
    StoredNewInvoiceKeys(fields, p);
    StoredNewInvoiceValues(fields, p);
  }

  lemma DefaultsMeetComputed()
    ensures Defaults.Keys * Computed == {"customer_id"}
    ensures Defaults.Keys !! {"id", "customer_name", "customer_email", "items"}
  {
  }

  lemma StoredNewInvoiceValues(fields: Record, p: Record)
    requires fields.Keys * Computed == {"customer_id"}
    requires fields.Keys !! {"id", "customer_name", "customer_email", "items"}
    requires p.Keys == fields.Keys + Computed
    requires forall k :: k in fields && k !in Computed ==> p[k] == fields[k]
    ensures "customer_id" in DbService.InvoiceInsertRow(p) && "total" in DbService.InvoiceInsertRow(p)
    ensures "subtotal" in DbService.InvoiceInsertRow(p) && "tax" in DbService.InvoiceInsertRow(p)
    ensures DbService.InvoiceInsertRow(p)["customer_id"] == p["customer_id"]
    ensures DbService.InvoiceInsertRow(p)["subtotal"] == p["subtotal"]
    ensures DbService.InvoiceInsertRow(p)["tax"] == p["tax"]
    ensures DbService.InvoiceInsertRow(p)["total"] == p["total"]
    ensures forall k :: k in fields && k != "customer_id" ==> DbService.InvoiceInsertRow(p)[k] == fields[k]
  {
    var row := DbService.InvoiceInsertRow(p);
    assert row.Keys == p.Keys - {"id", "customer_name", "customer_email", "items"};
    assert "customer_id" in Computed && "subtotal" in Computed && "tax" in Computed && "total" in Computed;
    forall k | k in fields && k != "customer_id"
      ensures row[k] == fields[k]
    {
      assert k !in Computed;
      assert k in row;
    }
  }

  lemma StoredNewInvoiceKeys(fields: Record, p: Record)
    requires fields.Keys == Defaults.Keys
    requires p.Keys == fields.Keys + Computed
    ensures DbService.InvoiceInsertRow(p).Keys == fields.Keys + {"subtotal", "tax", "total"}
  {
    var dropped := {"id", "customer_name", "customer_email", "items"};
    assert "customer_name" !in Defaults && "customer_email" !in Defaults;
    assert fields.Keys !! dropped;
    assert Computed - dropped == {"customer_id", "subtotal", "tax", "total"};
    assert p.Keys - dropped == (fields.Keys - dropped) + (Computed - dropped);
  }
}
