// The four stat cards (components/charts/quick-stats.tsx): over the items of
// the selection, how many there are, their total quantity, how many are low
// on stock, and how many warehouses are active.
module QuickStats {
  import opened Seqs
  import opened Types
  import Page

  /** Items below this quantity count as low on stock. */
  const LowStockBelow: nat := 10

  function IsLow(item: Item): bool { item.quantity < LowStockBelow }

  function IsActive(w: Warehouse): bool { w.itemCount > 0 }

  datatype Stats = Stats(totalItems: nat, totalQuantity: nat, lowStockItems: nat, activeWarehouses: nat)

  /**
   * `stats`: counted over the items of the selection, except that the active
   * warehouses are counted over all of them for "all" and are 1 otherwise.
   */
  function StatsOf(items: seq<Item>, warehouses: seq<Warehouse>, selected: string): (r: Stats)
    ensures r.lowStockItems <= r.totalItems
    ensures selected == All ==> r.totalItems == |items| && r.activeWarehouses <= |warehouses|
    ensures selected != All ==> r.totalItems == Page.CountAt(items, selected) && r.activeWarehouses == 1
    ensures r.totalQuantity == Sum(BySelection(items, selected), QuantityOf)
    ensures r.lowStockItems == Count(BySelection(items, selected), IsLow)
    ensures selected == All ==> r.activeWarehouses == Count(warehouses, IsActive)
  {
    var shown := BySelection(items, selected);
    Stats(|shown|, Sum(shown, QuantityOf), Count(shown, IsLow),
          if selected == All then Count(warehouses, IsActive) else 1)
  }

  /**
   * The dashboard hands over the already filtered list; filtering it again
   * changes nothing, so the cards show the same numbers either way.
   */
  lemma StatsOfFiltered(items: seq<Item>, warehouses: seq<Warehouse>, selected: string)
    ensures StatsOf(BySelection(items, selected), warehouses, selected) == StatsOf(items, warehouses, selected)
  {
    BySelectionSpec(items, [], selected, if |items| > 0 then items[0] else Item("", "", "", 0, "", None, ""));
  }

  /** Every item that is not low holds at least ten, so the total quantity is at least ten per such item. */
  lemma {:induction false} QuantityCoversStock(items: seq<Item>)
    ensures Sum(items, QuantityOf) >= LowStockBelow * (|items| - Count(items, IsLow))
  {
    if |items| > 0 {
      var prefix := items[..|items| - 1];
      QuantityCoversStock(prefix);
    }
  }

  /** The same bound on the cards themselves. */
  lemma StatsQuantityBound(items: seq<Item>, warehouses: seq<Warehouse>, selected: string)
    ensures var r := StatsOf(items, warehouses, selected);
      r.totalQuantity >= LowStockBelow * (r.totalItems - r.lowStockItems)
  {
    QuantityCoversStock(BySelection(items, selected));
  }

  /**
   * With the counts kept current by the store, a warehouse is active exactly
   * when some item is stored under its name.
   */
  lemma ActiveIffStocked(items: seq<Item>, w: Warehouse)
    requires w.itemCount == Page.CountAt(items, w.name)
    ensures IsActive(w) <==> exists j :: 0 <= j < |items| && items[j].location == w.name
  {
    var f := Filter(items, AtLocation(w.name));
    if |f| > 0 {
      FilterMembers(items, AtLocation(w.name), f[0]);
    }
    if exists j :: 0 <= j < |items| && items[j].location == w.name {
      var j :| 0 <= j < |items| && items[j].location == w.name;
      FilterMembers(items, AtLocation(w.name), items[j]);
    }
  }
}
