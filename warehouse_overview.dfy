// The bar chart (components/charts/warehouse-overview.tsx): for "all", one
// bar per warehouse with the total quantity stored there; for one
// warehouse, one bar per item stored there. Long names are shortened for
// the axis and kept whole for the tooltip.
module WarehouseOverview {
  import opened Seqs
  import opened Types
  import opened Text
  import Page

  /** Axis labels are cut to this many characters for warehouses, and for items. */
  const WarehouseNameWidth: nat := 8
  const ItemNameWidth: nat := 10

  /** One element of `chartData`; `items` is present only on warehouse bars. */
  datatype Bar = Bar(name: string, quantity: nat, items: Option<nat>, fullName: string)

  /** The bar of one warehouse: the quantity and the number of the items stored under its name. */
  function WarehouseBar(items: seq<Item>, w: Warehouse): (r: Bar)
    ensures r.fullName == w.name && r.name == Truncate(w.name, WarehouseNameWidth)
    ensures r.items == Some(Page.CountAt(items, w.name))
    ensures r.quantity == Sum(ItemsAt(items, w.name), QuantityOf)
  {
    var stored := ItemsAt(items, w.name);
    Bar(Truncate(w.name, WarehouseNameWidth), Sum(stored, QuantityOf), Some(|stored|), w.name)
  }

  /** The bar of one item. */
  function ItemBar(item: Item): (r: Bar)
    ensures r.fullName == item.name && r.name == Truncate(item.name, ItemNameWidth)
    ensures r.quantity == item.quantity && r.items == None
  {
    Bar(Truncate(item.name, ItemNameWidth), item.quantity, None, item.name)
  }

  function ItemBars(items: seq<Item>): (r: seq<Bar>)
    ensures |r| == |items| && forall i :: 0 <= i < |items| ==> r[i] == ItemBar(items[i])
  {
    seq(|items|, i requires 0 <= i < |items| => ItemBar(items[i]))
  }

  function WarehouseBars(items: seq<Item>, warehouses: seq<Warehouse>): (r: seq<Bar>)
    ensures |r| == |warehouses| && forall i :: 0 <= i < |warehouses| ==> r[i] == WarehouseBar(items, warehouses[i])
  {
    seq(|warehouses|, i requires 0 <= i < |warehouses| => WarehouseBar(items, warehouses[i]))
  }

  /** `chartData`. */
  function ChartData(items: seq<Item>, warehouses: seq<Warehouse>, selected: string): (r: seq<Bar>)
    ensures selected == All ==> r == WarehouseBars(items, warehouses)
    ensures selected != All ==> r == ItemBars(ItemsAt(items, selected))
  {
    if selected != All then ItemBars(ItemsAt(items, selected)) else WarehouseBars(items, warehouses)
  }

  function BarQuantity(b: Bar): nat { b.quantity }

  /** The item bars' quantities add up to the quantity of the items. */
  lemma {:induction false} ItemBarsTotal(items: seq<Item>)
    ensures Sum(ItemBars(items), BarQuantity) == Sum(items, QuantityOf)
  {
    if |items| > 0 {
      var prefix := items[..|items| - 1];
      ItemBarsTotal(prefix);
      assert ItemBars(items)[..|items| - 1] == ItemBars(prefix);
    }
  }

  /**
   * The two views agree: the bars of one warehouse's items add up to that
   * warehouse's bar in the "all" view, and there is one bar per item it
   * holds, which is the `itemCount` the store keeps.
   */
  lemma ViewsAgree(items: seq<Item>, warehouses: seq<Warehouse>, i: int)
    requires 0 <= i < |warehouses| && warehouses[i].name != All
    ensures var w := warehouses[i];
      && Sum(ChartData(items, warehouses, w.name), BarQuantity) == ChartData(items, warehouses, All)[i].quantity
      && Some(|ChartData(items, warehouses, w.name)|) == ChartData(items, warehouses, All)[i].items
      && (w.itemCount == Page.CountAt(items, w.name) ==> ChartData(items, warehouses, All)[i].items == Some(w.itemCount))
  {
    ItemBarsTotal(ItemsAt(items, warehouses[i].name));
  }

  const AllTitle: string := "Inventory by Warehouse"
  const AllDescription: string := "Total quantity of items across all warehouses"
  const OneDescription: string := "Quantity distribution of individual items"

  /** `title`. */
  function Title(selected: string): (r: string)
    ensures selected == All ==> r == AllTitle
    ensures selected != All ==> r == "Items in " + selected
  {
    if selected == All then AllTitle else "Items in " + selected
  }

  /** `description`: it tells only "all" from a single warehouse. */
  function Description(selected: string): (r: string)
    ensures r == AllDescription <==> selected == All
    ensures r == OneDescription <==> selected != All
  {
    if selected == All then AllDescription else OneDescription
  }

  /** Different selections get different titles, so the title names the selection. */
  lemma TitleNamesSelection(a: string, b: string)
    ensures Title(a) == Title(b) <==> a == b
  {
    var p := "Items in ";
    if a != All && b != All && Title(a) == Title(b) {
      assert a == (p + a)[|p|..] && b == (p + b)[|p|..];
    }
    if a == All && b != All {
      assert Title(b)[1] == 't' != AllTitle[1];
    }
    if b == All && a != All {
      assert Title(a)[1] == 't' != AllTitle[1];
    }
  }

  /** `barSize`: 60 for a single bar, 80 for none or two, 40 for three or more. */
  function BarSize(bars: nat): (r: nat)
    ensures r == 60 <==> bars == 1
    ensures r == 80 <==> bars == 0 || bars == 2
    ensures r == 40 <==> bars >= 3
  {
    if bars == 1 then 60 else if bars < 3 then 80 else 40
  }
}
