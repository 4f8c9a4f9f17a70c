/**
 * `Stock<T>`: a counting ledger from keys to integer quantities, shared by the
 * coin stock and the beverage stock. The class wraps a mutable map; the
 * functions before it describe each update on map values, and the class
 * methods are proved to perform exactly those updates.
 */
module Stocks {
  import opened Wrappers

  /** The quantity recorded for `k`; an absent key counts as zero (`getQuantity`). */
  function Quantity<T>(m: map<T, int>, k: T): (q: int)
    ensures k !in m ==> q == 0
    ensures k in m ==> q == m[k]
  {
    if k in m then m[k] else 0
  }

  /** Zero for a negative difference, the difference otherwise (`x >= 0 ? x : 0`). */
  function Floor(x: int): (r: nat)
    ensures r >= x
    ensures x >= 0 ==> r == x
    ensures r == 0 || r == x
  {
    if x >= 0 then x else 0
  }

  /** Every recorded quantity is non-negative. */
  ghost predicate NonNegative<T>(m: map<T, int>)
  {
    forall k :: k in m ==> m[k] >= 0
  }

  /** The ledger after `q` more units of `k` (`insertItem(k, q)`). */
  function Added<T(!new)>(m: map<T, int>, k: T, q: int): (r: map<T, int>)
    ensures k in r && Quantity(r, k) == Quantity(m, k) + q
    ensures forall j :: j != k ==> Quantity(r, j) == Quantity(m, j)
    ensures r.Keys == m.Keys + {k}
    ensures NonNegative(m) && q >= 0 ==> NonNegative(r)
  {
    m[k := Quantity(m, k) + q]
  }

  /** The ledger after removing `q` units of `k`, clamped at zero and always writing `k` (`deleteItem(k, q)`). */
  function Removed<T(!new)>(m: map<T, int>, k: T, q: int): (r: map<T, int>)
    ensures k in r && Quantity(r, k) == Floor(Quantity(m, k) - q)
    ensures forall j :: j != k ==> Quantity(r, j) == Quantity(m, j)
    ensures r.Keys == m.Keys + {k}
    ensures NonNegative(m) ==> NonNegative(r)
  {
    m[k := Floor(Quantity(m, k) - q)]
  }

  /**
   * The ledger after removing one unit of `k` (`deleteItem(k)`): only a key
   * with a positive quantity is touched, so an exhausted or absent key leaves
   * the map exactly as it was.
   */
  function RemovedOne<T(!new)>(m: map<T, int>, k: T): (r: map<T, int>)
    ensures Quantity(m, k) > 0 ==> Quantity(r, k) == Quantity(m, k) - 1 && r.Keys == m.Keys
    ensures Quantity(m, k) <= 0 ==> r == m
    ensures forall j :: j != k ==> Quantity(r, j) == Quantity(m, j)
    ensures NonNegative(m) ==> NonNegative(r)
  {
    if Quantity(m, k) > 0 then m[k := Floor(m[k] - 1)] else m
  }

  /** Removing one unit is removing a quantity of one, except that it never adds an absent key. */
  lemma RemovedOneIsRemovedOfOne<T(!new)>(m: map<T, int>, k: T)
    ensures Quantity(m, k) > 0 ==> RemovedOne(m, k) == Removed(m, k, 1)
    ensures k !in m ==> RemovedOne(m, k) == m && Removed(m, k, 1) == m[k := 0]
  {
  }

  /** Deleting what was just inserted restores every quantity (the key may stay, at zero). */
  lemma InsertThenDelete<T(!new)>(m: map<T, int>, k: T, q: int)
    requires Quantity(m, k) >= 0 && q >= 0
    ensures forall j :: Quantity(Removed(Added(m, k, q), k, q), j) == Quantity(m, j)
    ensures forall j :: Quantity(RemovedOne(Added(m, k, 1), k), j) == Quantity(m, j)
  {
  }

  class Stock<T(==, !new)> {
    /** The backing map, which `getStockMap` hands out. */
    var stockMap: map<T, int>

    constructor (stockMap: map<T, int>)
      ensures this.stockMap == stockMap
    {
      this.stockMap := stockMap;
    }

    function GetQuantity(item: T): (q: int)
      reads this
      ensures item !in stockMap ==> q == 0
      ensures item in stockMap ==> q == stockMap[item]
    {
      Quantity(stockMap, item)
    }

    predicate HasItem(item: T)
      reads this
      ensures HasItem(item) <==> item in stockMap && stockMap[item] > 0
    {
      GetQuantity(item) > 0
    }

    function GetItem(item: T): (r: Option<T>)
      reads this
      ensures r == Some(item) <==> item in stockMap && stockMap[item] > 0
      ensures r.None? <==> Quantity(stockMap, item) <= 0
    {
      if HasItem(item) then Some(item) else None
    }

    method InsertItem(item: T)
      modifies this
      ensures stockMap == Added(old(stockMap), item, 1)
    {
      var quantity := GetQuantity(item);
      quantity := quantity + 1;
      stockMap := stockMap[item := quantity];
    }

    method InsertItemQuantity(item: T, quantity: int)
      modifies this
      ensures stockMap == Added(old(stockMap), item, quantity)
    {
      var finalQuantity := GetQuantity(item) + quantity;
      stockMap := stockMap[item := finalQuantity];
    }

    method DeleteItem(item: T)
      modifies this
      ensures stockMap == RemovedOne(old(stockMap), item)
    {
      if HasItem(item) {
        var quantity := stockMap[item];
        var finalQuantity := quantity - 1;
        stockMap := stockMap[item := if finalQuantity >= 0 then finalQuantity else 0];
      }
    }

    method DeleteItemQuantity(item: T, quantity: int)
      modifies this
      ensures stockMap == Removed(old(stockMap), item, quantity)
    {
      var finalQuantity := GetQuantity(item) - quantity;
      stockMap := stockMap[item := if finalQuantity >= 0 then finalQuantity else 0];
    }

    method ClearAllItems()
      modifies this
      ensures stockMap == map[]
      ensures forall k :: Quantity(stockMap, k) == 0
    {
      stockMap := map[];
    }

    function GetStockMap(): (m: map<T, int>)
      reads this
      ensures m.Keys == stockMap.Keys
      ensures forall k :: Quantity(m, k) == GetQuantity(k)
    {
      stockMap
    }
  }
}
