/**
 * What every entity form shares: fields initialised from the record being
 * edited (or from defaults for a new one), values carried over on submit,
 * and numeric inputs that fall back to a default when cleared.
 */
module FormFields {
  import opened Wrappers
  import opened Values

  /** `existing?.k`, where `existing` is absent for a new record. */
  function Get(existing: Option<Record>, k: string): (v: Option<Value>)
    ensures existing.None? ==> v.None?
    ensures existing.Some? ==> v == Field(existing.value, k)
  {
    match existing
    case None => None
    case Some(r) => Field(r, k)
  }

  /** `existing?.k || fallback`: a truthy existing value is carried over. */
  function Carry(existing: Option<Record>, k: string, fallback: Value): (v: Value)
    ensures existing.None? ==> v == fallback
    ensures IsTruthy(Get(existing, k)) ==> v == Get(existing, k).value
    ensures !IsTruthy(Get(existing, k)) ==> v == fallback
  {
    Or(Get(existing, k), fallback)
  }

  /** The form state when it opens: `{ k: existing?.k || defaults[k], ... }`. */
  function InitFields(existing: Option<Record>, defaults: Record): (r: Record)
    ensures r.Keys == defaults.Keys
    ensures forall k :: k in r ==> r[k] == Carry(existing, k, defaults[k])
  {
    map k | k in defaults :: Carry(existing, k, defaults[k])
  }

  /** A new form shows exactly the defaults. */
  lemma NewFormShowsDefaults(defaults: Record)
    ensures InitFields(None, defaults) == defaults
  {
  }

  /** Opening a form on the fields it would itself show gives the same fields. */
  lemma ReopenIsStable(existing: Option<Record>, defaults: Record)
    ensures InitFields(Some(InitFields(existing, defaults)), defaults) == InitFields(existing, defaults)
  {
    var once := InitFields(existing, defaults);
    forall k | k in defaults
      ensures Carry(Some(once), k, defaults[k]) == once[k]
    {
      if !Truthy(once[k]) {
        assert !IsTruthy(Get(existing, k));
      }
    }
  }

  /** A number produced by the host's parser; `None` is `NaN`. */
  function Parsed(p: Option<real>): (v: Value)
    ensures v.Num? <==> p.Some?
    ensures p.Some? ==> v.n == p.value
    ensures p.None? ==> v == NaN
  {
    match p
    case Some(x) => Num(x)
    case None => NaN
  }

  /** A numeric input's change handler: `text ? parse(text) : empty`. */
  function NumericInput(text: string, parse: string -> Option<real>, empty: Value): (v: Value)
    ensures text == "" ==> v == empty
    ensures text != "" ==> v == Parsed(parse(text))
  {
    if text != "" then Parsed(parse(text)) else empty
  }
}
