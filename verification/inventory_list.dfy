/** The inventory list: search, the low-stock and category views, stock edits and deletion. */
module InventoryList {
  import opened Wrappers
  import opened Seqs
  import opened Entities
  import opened ListView

  /** The three views the list can show. */
  datatype View = All | LowStock | Categories

  predicate Matches(item: InventoryItem, query: string)
  {
    MatchesIgnoringCase(item.name, query) || MatchesIgnoringCase(item.sku, query)
    || MatchesIgnoringCase(item.category, query)
  }

  /** `filteredItems`: the search, then in the low-stock view only items at or under their minimum. */
  function Visible(inventory: seq<InventoryItem>, query: string, view: View): (r: seq<InventoryItem>)
    ensures forall x :: x in r <==> x in inventory && Matches(x, query) && (view == LowStock ==> AtOrBelowMinimum(x))
    ensures IsSubsequence(r, inventory)
    ensures forall x :: multiset(r)[x] ==
             if Matches(x, query) && (view == LowStock ==> AtOrBelowMinimum(x)) then multiset(inventory)[x] else 0
  {
    var found := Filter(inventory, (x: InventoryItem) => Matches(x, query));
    if view == LowStock then
      var low := Filter(found, AtOrBelowMinimum);
      SubsequenceTransitive(low, found, inventory);
      low
    else found
  }

  /** An empty search in the plain view shows the whole inventory. */
  lemma {:induction false} EmptySearchShowsAll(inventory: seq<InventoryItem>)
    ensures Visible(inventory, "", All) == inventory
  {
    if |inventory| > 0 {
      EmptySearchShowsAll(inventory[1..]);
      EmptyQueryMatches(inventory[0].name);
      assert inventory == [inventory[0]] + inventory[1..];
      FilterAppend([inventory[0]], inventory[1..], x => Matches(x, ""));
    }
  }

  /** `handleDelete`. */
  function Delete(inventory: seq<InventoryItem>, id: int): (r: seq<InventoryItem>)
    ensures forall x :: x in r <==> x in inventory && x.id != id
    ensures IsSubsequence(r, inventory)
    ensures forall x :: multiset(r)[x] == if x.id != id then multiset(inventory)[x] else 0
  {
    Filter(inventory, (x: InventoryItem) => x.id != id)
  }

  /** `Math.max(0, quantity + change)`. */
  function Clamp(quantity: int, change: int): (q: int)
    ensures q >= 0
    ensures quantity + change >= 0 ==> q == quantity + change
    ensures quantity + change < 0 ==> q == 0
  {
    if quantity + change > 0 then quantity + change else 0
  }

  /** `handleUpdateQuantity`: the items with `id` get their quantity moved by `change`, floored at 0. */
  function UpdateQuantity(inventory: seq<InventoryItem>, id: int, change: int): (r: seq<InventoryItem>)
    ensures |r| == |inventory|
    ensures forall i :: 0 <= i < |r| && inventory[i].id == id ==>
      r[i] == inventory[i].(quantity := Clamp(inventory[i].quantity, change))
    ensures forall i :: 0 <= i < |r| && inventory[i].id != id ==> r[i] == inventory[i]
  {
    seq(|inventory|, i requires 0 <= i < |inventory| =>
      if inventory[i].id == id then inventory[i].(quantity := Clamp(inventory[i].quantity, change))
      else inventory[i])
  }

  /** Pressing + and then - restores the inventory (stock is never negative to begin with). */
  lemma PlusThenMinus(inventory: seq<InventoryItem>, id: int)
    requires forall i :: 0 <= i < |inventory| ==> inventory[i].quantity >= 0
    ensures UpdateQuantity(UpdateQuantity(inventory, id, 1), id, -1) == inventory
  {
  }

  /** Pressing - and then + restores the inventory when the item had stock; at 0 it ends at 1. */
  lemma MinusThenPlus(inventory: seq<InventoryItem>, id: int, i: nat)
    requires i < |inventory| && inventory[i].id == id
    ensures inventory[i].quantity >= 1 ==> UpdateQuantity(UpdateQuantity(inventory, id, -1), id, 1)[i] == inventory[i]
    ensures inventory[i].quantity <= 0 ==> UpdateQuantity(UpdateQuantity(inventory, id, -1), id, 1)[i].quantity == 1
  {
  }

  function CategoryOf(x: InventoryItem): string { x.category }

  /** Of two listed categories, the earlier one occurs in `shown` before the later one first does. */
  ghost predicate InFirstAppearanceOrder(cats: seq<string>, shown: seq<InventoryItem>)
  {
    forall i, j :: 0 <= i < j < |cats| ==>
      exists p :: 0 <= p < |shown| && shown[p].category == cats[i]
        && forall q :: 0 <= q <= p ==> shown[q].category != cats[j]
  }

  /** `[...new Set(items.map(item => item.category))]`: each category once, in order of first appearance. */
  function Categories(shown: seq<InventoryItem>): (cats: seq<string>)
    ensures NoDuplicates(cats)
    ensures forall c :: c in cats <==> exists x :: x in shown && x.category == c
    ensures InFirstAppearanceOrder(cats, shown)
    ensures cats == Distinct(Map(shown, CategoryOf))
  {
    var all := Map(shown, CategoryOf);
    var cats := Distinct(all);
    CategoriesCovered(shown, all, cats);
    CategoriesInOrder(shown, all, cats);
    cats
  }

  lemma CategoriesCovered(shown: seq<InventoryItem>, all: seq<string>, cats: seq<string>)
    requires all == Map(shown, CategoryOf) && cats == Distinct(all)
    ensures forall c :: c in cats <==> exists x :: x in shown && x.category == c
  {
    forall c | c in cats ensures exists x :: x in shown && x.category == c {
      var i :| 0 <= i < |all| && all[i] == c;
      assert shown[i] in shown && shown[i].category == c;
    }
    forall x | x in shown ensures x.category in cats {
      var i :| 0 <= i < |shown| && shown[i] == x;
      assert all[i] == x.category;
    }
  }

  lemma CategoriesInOrder(shown: seq<InventoryItem>, all: seq<string>, cats: seq<string>)
    requires all == Map(shown, CategoryOf) && cats == Distinct(all)
    ensures InFirstAppearanceOrder(cats, shown)
  {
    forall i, j | 0 <= i < j < |cats|
      ensures exists p :: 0 <= p < |shown| && shown[p].category == cats[i]
                && forall q :: 0 <= q <= p ==> shown[q].category != cats[j]
    {
      OrderedPair(shown, all, cats, i, j);
    }
  }

  lemma OrderedPair(shown: seq<InventoryItem>, all: seq<string>, cats: seq<string>, i: int, j: int)
    requires all == Map(shown, CategoryOf) && cats == Distinct(all)
    requires 0 <= i < j < |cats|
    ensures exists p :: 0 <= p < |shown| && shown[p].category == cats[i]
              && forall q :: 0 <= q <= p ==> shown[q].category != cats[j]
  {
    var p := FirstIndex(all, cats[i]);
    assert p < FirstIndex(all, cats[j]);
    assert shown[p].category == all[p];
    forall q | 0 <= q <= p ensures shown[q].category != cats[j] {
      assert shown[q].category == all[q];
    }
  }

  /** The shown items of one category. */
  function InCategory(shown: seq<InventoryItem>, category: string): (r: seq<InventoryItem>)
    ensures forall x :: x in r ==> x.category == category
    ensures forall x: InventoryItem :: x.category == category ==> multiset(r)[x] == multiset(shown)[x]
  {
    Filter(shown, (x: InventoryItem) => x.category == category)
  }

  /** The category view: one group per category, holding that category's shown items. */
  function CategoryGroups(shown: seq<InventoryItem>): (groups: seq<(string, seq<InventoryItem>)>)
    ensures |groups| == |Categories(shown)|
    ensures forall i :: 0 <= i < |groups| ==> groups[i].0 == Categories(shown)[i]
    ensures forall i :: 0 <= i < |groups| ==> groups[i].1 == InCategory(shown, groups[i].0)
  {
    var cats := Categories(shown);
    seq(|cats|, i requires 0 <= i < |cats| => (cats[i], InCategory(shown, cats[i])))
  }

  /**
   * Every shown item sits in exactly one group of the category view, the one
   * for its category, as many times as it is shown; no category is listed twice.
   */
  lemma ExactlyOneGroup(shown: seq<InventoryItem>, x: InventoryItem)
    requires x in shown
    ensures var groups := CategoryGroups(shown);
      exists i :: 0 <= i < |groups| && groups[i].0 == x.category && multiset(groups[i].1)[x] == multiset(shown)[x]
    ensures var groups := CategoryGroups(shown);
      forall j :: 0 <= j < |groups| && x in groups[j].1 ==> groups[j].0 == x.category
    ensures var groups := CategoryGroups(shown);
      forall i, j :: 0 <= i < j < |groups| ==> groups[i].0 != groups[j].0
  {
    var groups := CategoryGroups(shown);
    var cats := Categories(shown);
    assert x.category in cats;
    var i :| 0 <= i < |cats| && cats[i] == x.category;
    assert groups[i].0 == x.category;
  }

  /**
   * The width of an item's stock bar: its stock as a percentage of its minimum,
   * capped at 100. With a zero minimum the division gives infinity (capped
   * to 100) or `NaN`/minus infinity, which the browser ignores (`None`).
   */
  function StockBarWidth(item: InventoryItem): (w: Option<real>)
    ensures item.minQuantity > 0 ==> w.Some? && w.value <= 100.0
    ensures item.minQuantity > 0 && item.quantity >= 0 ==> 0.0 <= w.value
    ensures item.minQuantity > 0 && item.quantity < item.minQuantity ==> w.value < 100.0
    ensures item.minQuantity > 0 && item.quantity >= item.minQuantity ==> w.value == 100.0
    ensures item.minQuantity != 0 ==>
      var pct := item.quantity as real / item.minQuantity as real * 100.0;
      w == Some(if pct <= 100.0 then pct else 100.0)
    ensures item.minQuantity == 0 ==> (w.Some? <==> item.quantity > 0) && (w.Some? ==> w.value == 100.0)
  {
    if item.minQuantity != 0 then
      var pct := item.quantity as real / item.minQuantity as real * 100.0;
      Some(if pct < 100.0 then pct else 100.0)
    else if item.quantity > 0 then Some(100.0)
    else None
  }
}
