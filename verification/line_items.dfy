/**
 * Line items of invoices and repair orders: their amounts and sums, removal
 * by id, and their shape as stored values.
 */
module LineItems {
  import opened Wrappers
  import opened Seqs
  import opened Values

  /** One billed article: `{ id, description, quantity, unit_price }`. */
  datatype LineItem = LineItem(id: int, description: string, quantity: real, unitPrice: real)

  /** `item.quantity * item.unit_price`. */
  function Amount(item: LineItem): real
  {
    item.quantity * item.unitPrice
  }

  /** `items.reduce((sum, item) => sum + item.quantity * item.unit_price, 0)`. */
  function ItemsTotal(items: seq<LineItem>): real
  {
    SumBy(items, Amount)
  }

  /** Appending an item adds exactly its amount to the sum. */
  lemma ItemsTotalSnoc(items: seq<LineItem>, item: LineItem)
    ensures ItemsTotal(items + [item]) == ItemsTotal(items) + Amount(item)
  {
    SumByAppend(items, [item], Amount);
  }

  /** The sum of items with non-negative quantities and prices is never negative. */
  lemma ItemsTotalNonNegative(items: seq<LineItem>)
    requires forall i :: 0 <= i < |items| ==> items[i].quantity >= 0.0 && items[i].unitPrice >= 0.0
    ensures ItemsTotal(items) >= 0.0
  {
    SumByNonNegative(items, Amount);
  }

  /**
   * The left-to-right accumulation `reduce` performs, step by step; it agrees
   * with the recursive sum.
   */
  method Reduce(items: seq<LineItem>) returns (sum: real)
    ensures sum == ItemsTotal(items)
  {
    sum := 0.0;
    var i := 0;
    while i < |items|
      invariant 0 <= i <= |items|
      invariant sum == ItemsTotal(items[..i])
    {
      ItemsTotalSnoc(items[..i], items[i]);
      assert items[..i + 1] == items[..i] + [items[i]];
      sum := sum + items[i].quantity * items[i].unitPrice;
      i := i + 1;
    }
    assert items[..i] == items;
  }

  /** `items.filter(item => item.id !== id)`. */
  function RemoveById(items: seq<LineItem>, id: int): (r: seq<LineItem>)
    ensures forall x :: x in r <==> x in items && x.id != id
    ensures IsSubsequence(r, items)
    ensures forall i :: 0 <= i < |r| ==> r[i].id != id
    ensures forall x :: multiset(r)[x] == if x.id != id then multiset(items)[x] else 0
  {
    Filter(items, (x: LineItem) => x.id != id)
  }

  /** Removing an id no item carries changes nothing. */
  lemma {:induction false} RemoveAbsentId(items: seq<LineItem>, id: int)
    requires forall i :: 0 <= i < |items| ==> items[i].id != id
    ensures RemoveById(items, id) == items
  {
    if |items| > 0 {
      RemoveAbsentId(items[1..], id);
      assert items == [items[0]] + items[1..];
      FilterAppend([items[0]], items[1..], (x: LineItem) => x.id != id);
    }
  }

  /** Adding an item under a fresh id and then removing that id restores the list. */
  lemma AddThenRemove(items: seq<LineItem>, item: LineItem)
    requires forall i :: 0 <= i < |items| ==> items[i].id != item.id
    ensures RemoveById(items + [item], item.id) == items
  {
    FilterAppend(items, [item], (x: LineItem) => x.id != item.id);
    RemoveAbsentId(items, item.id);
  }

  /** An item as it is held in a payload. */
  function Encode(item: LineItem): (v: Value)
    ensures v.Obj? && v.fields.Keys == {"id", "description", "quantity", "unit_price"}
  {
    Obj(map["id" := Num(item.id as real), "description" := Str(item.description),
             "quantity" := Num(item.quantity), "unit_price" := Num(item.unitPrice)])
  }

  /** Reads an item back from a value; anything not shaped like `Encode`'s output is rejected. */
  function Decode(v: Value): (r: Option<LineItem>)
    ensures r.Some? ==> v.Obj?
  {
    match v
    case Obj(m) =>
      (match (Field(m, "id"), Field(m, "description"), Field(m, "quantity"), Field(m, "unit_price"))
       case (Some(Num(id)), Some(Str(d)), Some(Num(q)), Some(Num(p))) =>
         if id.Floor as real == id then Some(LineItem(id.Floor, d, q, p)) else None
       case _ => None)
    case _ => None
  }

  lemma DecodeEncode(item: LineItem)
    ensures Decode(Encode(item)) == Some(item)
  {
  }

  function EncodeAll(items: seq<LineItem>): (v: Value)
    ensures v.Arr? && |v.elems| == |items|
    ensures forall i :: 0 <= i < |items| ==> v.elems[i] == Encode(items[i])
  {
    Arr(seq(|items|, i requires 0 <= i < |items| => Encode(items[i])))
  }

  /** Reads a stored array of items; one malformed element rejects the array. */
  function DecodeAll(elems: seq<Value>): (r: Option<seq<LineItem>>)
    ensures r.Some? <==> forall i :: 0 <= i < |elems| ==> Decode(elems[i]).Some?
    ensures r.Some? ==> |r.value| == |elems|
    ensures r.Some? ==> forall i :: 0 <= i < |elems| ==> r.value[i] == Decode(elems[i]).value
  {
    if |elems| == 0 then Some([])
    else
      match (Decode(elems[0]), DecodeAll(elems[1..]))
      case (Some(x), Some(rest)) => Some([x] + rest)
      case _ =>
        assert forall i :: 1 <= i < |elems| ==> elems[i] == elems[1..][i - 1];
        None
  }

  /** Storing a list of items and reading it back gives the same list. */
  lemma DecodeAllEncodeAll(items: seq<LineItem>)
    ensures DecodeAll(EncodeAll(items).elems) == Some(items)
  {
    var elems := EncodeAll(items).elems;
    forall i | 0 <= i < |items|
      ensures Decode(elems[i]) == Some(items[i])
    {
      DecodeEncode(items[i]);
    }
    assert DecodeAll(elems).value == items;
  }
}
