/**
 * Loosely typed JavaScript values, as records cross the persistence boundary
 * and as form payloads are assembled. A record is a map from field names to
 * values; a field JavaScript would hold as `undefined` is simply absent.
 */
module Values {
  import opened Wrappers

  datatype Value =
    | Null
    | Bool(b: bool)
    | Num(n: real)
    | NaN
    | Str(s: string)
    | Arr(elems: seq<Value>)
    | Obj(fields: map<string, Value>)

  type Record = map<string, Value>

  /** JavaScript truthiness (`undefined` is `None` at the call sites). */
  predicate Truthy(v: Value)
  {
    match v
    case Null => false
    case Bool(b) => b
    case Num(n) => n != 0.0
    case NaN => false
    case Str(s) => s != ""
    case Arr(_) => true
    case Obj(_) => true
  }

  predicate IsTruthy(v: Option<Value>)
  {
    v.Some? && Truthy(v.value)
  }

  /** `r.k`. */
  function Field(r: Record, k: string): (v: Option<Value>)
    ensures v.Some? <==> k in r
    ensures v.Some? ==> v.value == r[k]
  {
    if k in r then Some(r[k]) else None
  }

  /** `v?.k`: undefined unless `v` is an object holding `k`. */
  function Prop(v: Option<Value>, k: string): (p: Option<Value>)
    ensures p.Some? <==> v.Some? && v.value.Obj? && k in v.value.fields
  {
    match v
    case Some(Obj(m)) => Field(m, k)
    case _ => None
  }

  /** `v || d`. */
  function Or(v: Option<Value>, d: Value): (r: Value)
    ensures IsTruthy(v) ==> r == v.value
    ensures !IsTruthy(v) ==> r == d
  {
    if IsTruthy(v) then v.value else d
  }

  /** `{...r, k: v}` where `v` may be `undefined` (then `k` is dropped). */
  function SetOrDrop(r: Record, k: string, v: Option<Value>): (o: Record)
    ensures v.Some? ==> o == r[k := v.value]
    ensures v.None? ==> o.Keys == r.Keys - {k}
    ensures forall j :: j in r && j != k ==> j in o && o[j] == r[j]
  {
    match v
    case Some(x) => r[k := x]
    case None => r - {k}
  }

  /** `{...base, ...over}`: the fields of `over` win. */
  function Spread(base: Record, over: Record): (r: Record)
    ensures r.Keys == base.Keys + over.Keys
    ensures forall k :: k in over ==> r[k] == over[k]
    ensures forall k :: k in base && k !in over ==> r[k] == base[k]
  {
    base + over
  }

  /** `const { k1, k2, ..., ...rest } = r`: the record without the named keys. */
  function Omit(r: Record, keys: set<string>): (o: Record)
    ensures o.Keys == r.Keys - keys
    ensures forall k :: k in o ==> o[k] == r[k]
  {
    r - keys
  }

  /** Dropping two key sets in turn is dropping their union. */
  lemma OmitTwice(r: Record, a: set<string>, b: set<string>)
    ensures Omit(Omit(r, a), b) == Omit(r, a + b)
  {
    assert Omit(Omit(r, a), b).Keys == Omit(r, a + b).Keys;
  }

  /** Dropping again exactly the keys a spread added gives back the original record. */
  lemma DropAdded(fields: Record, added: set<string>, p: Record, row: Record)
    requires fields.Keys !! added
    requires p.Keys == fields.Keys + added && forall k :: k in fields ==> p[k] == fields[k]
    requires row.Keys == p.Keys - added && forall k :: k in row ==> row[k] == p[k]
    ensures row == fields
  {
    assert row.Keys == fields.Keys;
  }

  /**
   * `Number(v)`. Non-empty strings go through `parse`, the host's numeric
   * parser (`None` when the text is not a number).
   */
  function NumberOf(v: Option<Value>, parse: string -> Option<real>): (n: Value)
    ensures n.Num? || n.NaN?
    ensures v.Some? && v.value.Num? ==> n == v.value
    ensures v == Some(Str("")) ==> n == Num(0.0)
    ensures v == Some(Arr([])) ==> n == Num(0.0)
    ensures v.Some? && v.value.Arr? && |v.value.elems| >= 2 ==> n == NaN
    ensures v.Some? && v.value.Arr? && |v.value.elems| == 1 && v.value.elems[0].Num? ==> n == v.value.elems[0]
    ensures v.None? ==> n == NaN
    ensures v == Some(Null) ==> n == Num(0.0)
    ensures v.Some? && v.value.Str? && v.value.s != "" ==>
              n == (if parse(v.value.s).Some? then Num(parse(v.value.s).value) else NaN)
  {
    match v
    case None => NaN
    case Some(x) => ToNumber(x, parse)
  }

  /**
   * The number a value converts to. An array converts through its string,
   * the elements joined with ",": empty gives 0, two or more elements give a
   * comma and so `NaN`, and a single element converts as its own text would,
   * which for `true` and `false` is `NaN`.
   */
  function ToNumber(x: Value, parse: string -> Option<real>): (n: Value)
    ensures n.Num? || n.NaN?
    ensures x.Arr? && |x.elems| == 1 && x.elems[0].Num? ==> n == x.elems[0]
    ensures x.Arr? && |x.elems| == 1 && x.elems[0].Bool? ==> n == NaN
  {
    match x
    case Null => Num(0.0)
    case Bool(b) => if b then Num(1.0) else Num(0.0)
    case Num(r) => Num(r)
    case NaN => NaN
    case Str(s) =>
      if s == "" then Num(0.0)
      else (match parse(s) case Some(r) => Num(r) case None => NaN)
    case Arr(elems) =>
      if |elems| == 0 then Num(0.0)
      else if |elems| >= 2 || elems[0].Bool? then NaN
      else ToNumber(elems[0], parse)
    case Obj(_) => NaN
  }

  /** `a === b` for primitive values; objects and arrays are never identical here. */
  predicate StrictEquals(a: Option<Value>, b: Option<Value>)
  {
    match (a, b)
    case (None, None) => true
    case (Some(Null), Some(Null)) => true
    case (Some(Bool(x)), Some(Bool(y))) => x == y
    case (Some(Num(x)), Some(Num(y))) => x == y
    case (Some(Str(x)), Some(Str(y))) => x == y
    case _ => false
  }

  /** NaN is not strictly equal to anything, itself included. */
  lemma NaNNeverEqual(a: Option<Value>)
    ensures !StrictEquals(Some(NaN), a) && !StrictEquals(a, Some(NaN))
  {
  }
}
