/** The inventory-item form: defaults, numeric inputs, categories and payload. */
module InventoryForm {
  import opened Wrappers
  import opened Seqs
  import opened Values
  import opened FormFields

  /** The categories an item can be filed under. */
  const Categories: seq<string> := [
    "Fluidos", "Filtros", "Frenos", "Eléctrico", "Correas",
    "Encendido", "Suspensión", "Transmisión", "Motor", "Otros"]

  /** There are ten categories and no two are the same. */
  lemma CategoriesDistinct()
    ensures |Categories| == 10
    ensures NoDuplicates(Categories)
  {
  }

  /** The fields a new item form shows. */
  const Defaults: Record := map[
    "name" := Str(""), "sku" := Str(""), "category" := Str(""), "quantity" := Num(0.0),
    "min_quantity" := Num(5.0), "unit_price" := Num(0.0), "supplier" := Str(""),
    "description" := Str("")]

  /** A new item starts with no stock, a threshold of 5 and price 0. */
  lemma NewItemDefaults()
    ensures InitFields(None, Defaults)["quantity"] == Num(0.0)
    ensures InitFields(None, Defaults)["min_quantity"] == Num(5.0)
    ensures InitFields(None, Defaults)["unit_price"] == Num(0.0)
  {
    NewFormShowsDefaults(Defaults);
  }

  /** Which numeric input changed. */
  datatype NumberField = Quantity | MinQuantity | UnitPrice

  function FieldName(f: NumberField): string
  {
    match f
    case Quantity => "quantity"
    case MinQuantity => "min_quantity"
    case UnitPrice => "unit_price"
  }

  /**
   * A numeric input's change handler: the parsed text, or the field's own
   * default when the input is cleared; no other field changes.
   */
  function SetNumber(fields: Record, f: NumberField, text: string, parse: string -> Option<real>): (r: Record)
    ensures r.Keys == fields.Keys + {FieldName(f)}
    ensures text == "" ==> r[FieldName(f)] == Defaults[FieldName(f)]
    ensures text != "" ==> r[FieldName(f)] == Parsed(parse(text))
    ensures forall k :: k in fields && k != FieldName(f) ==> r[k] == fields[k]
  {
    fields[FieldName(f) := NumericInput(text, parse, Defaults[FieldName(f)])]
  }

  /** Clearing the three inputs restores quantity 0, threshold 5 and price 0. */
  lemma ClearingRestoresDefaults(fields: Record, parse: string -> Option<real>)
    ensures var r := SetNumber(SetNumber(SetNumber(fields, Quantity, "", parse), MinQuantity, "", parse), UnitPrice, "", parse);
      r["quantity"] == Num(0.0) && r["min_quantity"] == Num(5.0) && r["unit_price"] == Num(0.0)
  {
  }

  /** `handleSubmit`'s payload: the form fields, the item's id and its last restock date (or today). */
  function Payload(fields: Record, existing: Option<Record>, freshId: real, today: string): (r: Record)
    ensures r.Keys == fields.Keys + {"id", "last_restocked"}
    ensures forall k :: k in fields && k != "id" && k != "last_restocked" ==> r[k] == fields[k]
    ensures IsTruthy(Get(existing, "last_restocked")) ==> r["last_restocked"] == existing.value["last_restocked"]
    ensures !IsTruthy(Get(existing, "last_restocked")) ==> r["last_restocked"] == Str(today)
    ensures IsTruthy(Get(existing, "id")) ==> r["id"] == existing.value["id"]
    ensures !IsTruthy(Get(existing, "id")) ==> r["id"] == Num(freshId)
  {
    Spread(fields, map["id" := Carry(existing, "id", Num(freshId)),
                       "last_restocked" := Carry(existing, "last_restocked", Str(today))])
  }
}
