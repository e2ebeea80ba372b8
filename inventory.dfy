/** The sacristy inventory: quantities adjusted by the plus and minus
    buttons, the low-stock list, the category list and deletion. */
module Inventory {
  import opened Lists

  datatype InventoryItem = InventoryItem(id: string, name: string, quantity: int, minQuantity: int, category: string)

  function Max(a: int, b: int): int {
    if a >= b then a else b
  }

  /** `updateQuantity`: the items with id `id` move their quantity by
      `delta`, never below zero; every other item is unchanged. */
  function UpdateQuantity(inv: seq<InventoryItem>, id: string, delta: int): (r: seq<InventoryItem>)
    ensures |r| == |inv|
    ensures forall i :: 0 <= i < |inv| && inv[i].id == id ==>
      r[i] == inv[i].(quantity := Max(0, inv[i].quantity + delta))
    ensures forall i :: 0 <= i < |inv| && inv[i].id == id ==>
      r[i].quantity >= 0 && (r[i].quantity == 0 || r[i].quantity == inv[i].quantity + delta)
    ensures forall i :: 0 <= i < |inv| && inv[i].id != id ==> r[i] == inv[i]
  {
    MapWhere(inv, (it: InventoryItem) => it.id == id,
      (it: InventoryItem) => it.(quantity := Max(0, it.quantity + delta)))
  }

  predicate NonNegative(inv: seq<InventoryItem>) {
    forall i :: 0 <= i < |inv| ==> inv[i].quantity >= 0
  }

  /** No sequence of adjustments makes a quantity negative. */
  lemma UpdateQuantityNonNegative(inv: seq<InventoryItem>, id: string, delta: int)
    requires NonNegative(inv)
    ensures NonNegative(UpdateQuantity(inv, id, delta))
  {
  }

  /** Adding `delta` and then taking it away gives the inventory back, as
      long as the addition did not hit the floor. */
  lemma UpdateQuantityUndo(inv: seq<InventoryItem>, id: string, delta: int)
    requires forall i :: 0 <= i < |inv| && inv[i].id == id ==> inv[i].quantity + delta >= 0 && inv[i].quantity >= 0
    ensures UpdateQuantity(UpdateQuantity(inv, id, delta), id, -delta) == inv
  {
    var r := UpdateQuantity(UpdateQuantity(inv, id, delta), id, -delta);
    forall i | 0 <= i < |inv| ensures r[i] == inv[i] {
    }
  }

  /** `lowStockItems`: the items at or below their minimum, in order. */
  function LowStock(inv: seq<InventoryItem>): (r: seq<InventoryItem>)
    ensures forall x :: x in r <==> x in inv && x.quantity <= x.minQuantity
    ensures forall x :: multiset(r)[x] == if x.quantity <= x.minQuantity then multiset(inv)[x] else 0
  {
    Filter(inv, (it: InventoryItem) => it.quantity <= it.minQuantity)
  }

  /** Taking items out never clears a low-stock warning: after a
      non-positive adjustment, every item that was low with a
      non-negative quantity is still low (a negative quantity may be
      clamped up to 0, above a negative minimum). */
  lemma LowStockStaysLow(inv: seq<InventoryItem>, id: string, delta: int)
    requires delta <= 0
    ensures var r := UpdateQuantity(inv, id, delta);
      forall i :: 0 <= i < |inv| && inv[i] in LowStock(inv) && inv[i].quantity >= 0 ==> r[i] in LowStock(r)
  {
    var r := UpdateQuantity(inv, id, delta);
    forall i | 0 <= i < |inv| && inv[i] in LowStock(inv) && inv[i].quantity >= 0
      ensures r[i] in LowStock(r)
    {
      assert r[i] in r;
    }
  }

  /** `item.category || 'Autre'`. */
  function CategoryOf(it: InventoryItem): (r: string)
    ensures r != ""
    ensures it.category != "" ==> r == it.category
    ensures it.category == "" ==> r == "Autre"
  {
    if it.category == "" then "Autre" else it.category
  }

  function CategoryList(inv: seq<InventoryItem>): (r: seq<string>)
    ensures |r| == |inv| && forall i :: 0 <= i < |inv| ==> r[i] == CategoryOf(inv[i])
  {
    if inv == [] then [] else [CategoryOf(inv[0])] + CategoryList(inv[1..])
  }

  /** `categories`: each category once, an item without one counting as
      "Autre". */
  function Categories(inv: seq<InventoryItem>): (r: seq<string>)
    ensures NoDuplicates(r)
    ensures forall c :: c in r <==> exists i :: 0 <= i < |inv| && CategoryOf(inv[i]) == c
    ensures "" !in r
  {
    var cats := CategoryList(inv);
    assert forall c :: c in cats <==> exists i :: 0 <= i < |inv| && CategoryOf(inv[i]) == c by {
      forall c | c in cats ensures exists i :: 0 <= i < |inv| && CategoryOf(inv[i]) == c {
        var i :| 0 <= i < |cats| && cats[i] == c;
      }
    }
    Distinct(cats)
  }

  /** `deleteItem`: exactly the items with another id stay, in order. */
  function DeleteItem(inv: seq<InventoryItem>, id: string): (r: seq<InventoryItem>)
    ensures forall x :: x in r <==> x in inv && x.id != id
    ensures forall x :: multiset(r)[x] == if x.id != id then multiset(inv)[x] else 0
  {
    RemoveId(inv, (it: InventoryItem) => it.id, id)
  }
}
