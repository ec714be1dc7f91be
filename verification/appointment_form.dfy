/** The appointment form: defaults, the duration input, the payload and the customer lookup. */
module AppointmentForm {
  import opened Wrappers
  import opened Seqs
  import opened Values
  import opened FormFields
  import DbService

  const DefaultDuration: Value := Num(60.0)

  /** The fields a new appointment form shows. */
  const Defaults: Record := map[
    "customer_id" := Str(""), "appointment_date" := Str(""), "status" := Str("pending"),
    "description" := Str(""), "estimated_duration" := DefaultDuration, "notes" := Str("")]

  /** A new appointment starts pending, planned for 60 minutes. */
  lemma NewAppointmentDefaults()
    ensures InitFields(None, Defaults)["status"] == Str("pending")
    ensures InitFields(None, Defaults)["estimated_duration"] == Num(60.0)
  {
    NewFormShowsDefaults(Defaults);
  }

  /** The duration input: cleared means 60 minutes, anything else is parsed as an integer. */
  function DurationInput(text: string, parseInt: string -> Option<real>): (v: Value)
    ensures text == "" ==> v == Num(60.0)
    ensures text != "" ==> (v.Num? <==> parseInt(text).Some?)
    ensures text != "" && parseInt(text).Some? ==> v == Num(parseInt(text).value)
    ensures text != "" && parseInt(text).None? ==> v == NaN
  {
    NumericInput(text, parseInt, DefaultDuration)
  }

  /** `handleSubmit`'s payload: the form fields, the customer id as a number, and the id. */
  function Payload(fields: Record, existing: Option<Record>, parse: string -> Option<real>, freshId: real): (r: Record)
    ensures r.Keys == fields.Keys + {"customer_id", "id"}
    ensures forall k :: k in fields && k != "customer_id" && k != "id" ==> r[k] == fields[k]
    ensures r["customer_id"] == NumberOf(Field(fields, "customer_id"), parse)
    ensures r["customer_id"].Num? || r["customer_id"].NaN?
    ensures r["id"] == Carry(existing, "id", Num(freshId))
  {
    Spread(fields, map["customer_id" := NumberOf(Field(fields, "customer_id"), parse),
                       "id" := Carry(existing, "id", Num(freshId))])
  }

  /** A new appointment is stored as exactly its six form fields, with the customer id as a number. */
  lemma StoredNewAppointment(fields: Record, parse: string -> Option<real>, freshId: real)
    requires fields.Keys == Defaults.Keys
    ensures DbService.AppointmentInsertRow(Payload(fields, None, parse, freshId))
         == fields["customer_id" := NumberOf(Field(fields, "customer_id"), parse)]
  {
    var p := Payload(fields, None, parse, freshId);
    var row := DbService.AppointmentInsertRow(p);
    var expected := fields["customer_id" := NumberOf(Field(fields, "customer_id"), parse)];
    DefaultsLackIdentity();
    assert row.Keys == fields.Keys;
    assert forall k :: k in row ==> row[k] == expected[k];
  }

  lemma DefaultsLackIdentity()
    ensures "id" !in Defaults && "customer_id" in Defaults
    ensures "customer_name" !in Defaults && "customer_phone" !in Defaults && "customer_email" !in Defaults
  {
  }

  /** `c.id === Number(formData.customer_id)`. */
  predicate IsSelected(c: Record, fields: Record, parse: string -> Option<real>)
  {
    StrictEquals(Field(c, "id"), Some(NumberOf(Field(fields, "customer_id"), parse)))
  }

  /** `selectedCustomer`: the first loaded customer whose id is the chosen one. */
  function SelectedCustomer(customers: seq<Record>, fields: Record, parse: string -> Option<real>): (r: Option<Record>)
    ensures r.None? <==> forall i :: 0 <= i < |customers| ==> !IsSelected(customers[i], fields, parse)
    ensures r.Some? ==> exists i :: (
      && 0 <= i < |customers| && customers[i] == r.value
      && IsSelected(customers[i], fields, parse)
      && forall j :: 0 <= j < i ==> !IsSelected(customers[j], fields, parse))
  {
    match FindFirst(customers, (c: Record) => IsSelected(c, fields, parse))
    case Some(i) => Some(customers[i])
    case None => None
  }

  /** An id that is not a number selects nobody. */
  lemma UnparsableIdSelectsNobody(customers: seq<Record>, fields: Record, parse: string -> Option<real>)
    requires NumberOf(Field(fields, "customer_id"), parse).NaN?
    ensures SelectedCustomer(customers, fields, parse).None?
  {
  }
}
