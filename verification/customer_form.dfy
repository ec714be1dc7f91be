/** The customer form: its seven editable fields and the payload it submits. */
module CustomerForm {
  import opened Wrappers
  import opened Values
  import opened FormFields
  import DbService

  /** The fields a new customer form shows. */
  const Defaults: Record := map[
    "name" := Str(""), "email" := Str(""), "phone" := Str(""), "address" := Str(""),
    "city" := Str(""), "postal_code" := Str(""), "notes" := Str("")]

  /** The fields `handleSubmit` adds to the form's own. */
  const Carried: set<string> := {"id", "created_at", "appointments_count", "total_spent"}

  /**
   * `handleSubmit`'s payload: the form fields as edited, plus the customer's id,
   * creation date and counters carried over (a fresh id, today's date and zero
   * counters for a new customer).
   */
  function Payload(fields: Record, existing: Option<Record>, freshId: real, today: string): (r: Record)
    ensures r.Keys == fields.Keys + Carried
    ensures forall k :: k in fields && k !in Carried ==> r[k] == fields[k]
    ensures existing.None? ==>
      r["id"] == Num(freshId) && r["created_at"] == Str(today)
      && r["appointments_count"] == Num(0.0) && r["total_spent"] == Num(0.0)
    ensures forall k :: k in Carried && IsTruthy(Get(existing, k)) ==> r[k] == existing.value[k]
    ensures !IsTruthy(Get(existing, "id")) ==> r["id"] == Num(freshId)
    ensures !IsTruthy(Get(existing, "created_at")) ==> r["created_at"] == Str(today)
    ensures !IsTruthy(Get(existing, "appointments_count")) ==> r["appointments_count"] == Num(0.0)
    ensures !IsTruthy(Get(existing, "total_spent")) ==> r["total_spent"] == Num(0.0)
  {
    Spread(fields, map[
      "id" := Carry(existing, "id", Num(freshId)),
      "created_at" := Carry(existing, "created_at", Str(today)),
      "appointments_count" := Carry(existing, "appointments_count", Num(0.0)),
      "total_spent" := Carry(existing, "total_spent", Num(0.0))])
  }

  /** Whatever the form carried over, creating the customer stores exactly the seven form fields. */
  lemma StoredNewCustomer(fields: Record, existing: Option<Record>, freshId: real, today: string)
    requires fields.Keys == Defaults.Keys
    ensures DbService.CustomerInsertRow(Payload(fields, existing, freshId, today)) == fields
  {
    var p := Payload(fields, existing, freshId, today);
    var row := DbService.CustomerInsertRow(p);
    assert fields.Keys !! Carried by { DefaultsCarryNothing(); }
    assert row.Keys == p.Keys - Carried;
    DropAdded(fields, Carried, p, row);
  }

  lemma DefaultsCarryNothing()
    ensures Defaults.Keys !! Carried
  {
  }

  /** Updating stores the form fields with the id and creation date, but never the counters. */
  lemma StoredEditedCustomer(fields: Record, existing: Option<Record>, freshId: real, today: string)
    requires fields.Keys == Defaults.Keys
    ensures DbService.CustomerUpdateRow(Payload(fields, existing, freshId, today)).Keys
         == Defaults.Keys + {"id", "created_at"}
  {
    var p := Payload(fields, existing, freshId, today);
    DefaultsCarryNothing();
    assert DbService.CustomerUpdateRow(p).Keys == fields.Keys + Carried - {"appointments_count", "total_spent"};
    assert Carried - {"appointments_count", "total_spent"} == {"id", "created_at"};
  }
}
