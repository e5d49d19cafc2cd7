// The inventory page (app/page.tsx): the state cells `warehouses`, `items`
// and `selectedWarehouse`, the handlers that replace them, and the effect
// that recounts each warehouse's items whenever the items change. Each new
// list is a `map`, `filter` or spread of the previous one; `generateId()` and
// `new Date().toISOString()` are passed in as `id` and `now`.
module Page {
  import opened Seqs
  import opened Types

  /** The fields the add-item form supplies: an item without `id` and `lastUpdated`. */
  datatype NewItemFields = NewItemFields(
    name: string,
    sku: string,
    quantity: nat,
    location: string,
    category: Option<string>)

  /** The number of items stored under `name`. */
  function CountAt(items: seq<Item>, name: string): nat
  {
    Count(items, AtLocation(name))
  }

  /** The item-count effect: every warehouse keeps its id, name and place and gets the number of items at its name. */
  function Recounted(warehouses: seq<Warehouse>, items: seq<Item>): (r: seq<Warehouse>)
    ensures |r| == |warehouses|
    ensures forall i :: 0 <= i < |r| ==>
      r[i].id == warehouses[i].id && r[i].name == warehouses[i].name && r[i].itemCount == CountAt(items, warehouses[i].name)
  {
    seq(|warehouses|, i requires 0 <= i < |warehouses| =>
      warehouses[i].(itemCount := CountAt(items, warehouses[i].name)))
  }

  /** `{ ...fields, id, lastUpdated: now }`. */
  function NewItem(fields: NewItemFields, id: string, now: string): (r: Item)
    ensures r.id == id && r.lastUpdated == now
    ensures r.name == fields.name && r.sku == fields.sku && r.quantity == fields.quantity
    ensures r.location == fields.location && r.category == fields.category
  {
    Item(id, fields.name, fields.sku, fields.quantity, fields.location, fields.category, now)
  }

  /** `updateItem`: every item whose id matches is replaced by the update, restamped. */
  function Updated(items: seq<Item>, update: Item, now: string): (r: seq<Item>)
    ensures |r| == |items|
    ensures forall i :: 0 <= i < |r| ==>
      r[i] == if items[i].id == update.id then update.(lastUpdated := now) else items[i]
  {
    seq(|items|, i requires 0 <= i < |items| =>
      if items[i].id == update.id then update.(lastUpdated := now) else items[i])
  }

  function HasId(id: string): Item -> bool
  {
    (item: Item) => item.id == id
  }

  function OtherId(id: string): Item -> bool
  {
    (item: Item) => item.id != id
  }

  /** `deleteItem`: the items whose id differs, in their original order. */
  function Deleted(items: seq<Item>, id: string): seq<Item>
  {
    Filter(items, OtherId(id))
  }

  /** `transferItem`: the matching items get the new location and a new stamp. */
  function Transferred(items: seq<Item>, id: string, location: string, now: string): (r: seq<Item>)
    ensures |r| == |items|
    ensures forall i :: 0 <= i < |r| ==>
      r[i] == if items[i].id == id then items[i].(location := location, lastUpdated := now) else items[i]
  {
    seq(|items|, i requires 0 <= i < |items| =>
      if items[i].id == id then items[i].(location := location, lastUpdated := now) else items[i])
  }

  class InventoryStore {
    var warehouses: seq<Warehouse>
    var items: seq<Item>
    var selectedWarehouse: string

    /** Every warehouse's `itemCount` is the number of items at its name. */
    ghost predicate CountsCurrent()
      reads this
    {
      forall i :: 0 <= i < |warehouses| ==> warehouses[i].itemCount == CountAt(items, warehouses[i].name)
    }

    /** The initial state: two warehouses with fresh ids, no items, everything selected. */
    constructor (mainId: string, secondaryId: string)
      ensures warehouses == [Warehouse(mainId, "Main Warehouse", 0), Warehouse(secondaryId, "Secondary Warehouse", 0)]
      ensures items == [] && selectedWarehouse == All
      ensures CountsCurrent()
    {
      warehouses := [Warehouse(mainId, "Main Warehouse", 0), Warehouse(secondaryId, "Secondary Warehouse", 0)];
      items := [];
      selectedWarehouse := All;
    }

    /** The effect that runs after every change of `items`. */
    method RecountWarehouses()
      modifies this`warehouses
      ensures warehouses == Recounted(old(warehouses), items)
      ensures CountsCurrent()
    {
      warehouses := Recounted(warehouses, items);
    }

    method AddItem(fields: NewItemFields, id: string, now: string)
      modifies this`items, this`warehouses
      ensures items == old(items) + [NewItem(fields, id, now)]
      ensures warehouses == Recounted(old(warehouses), items)
      ensures CountsCurrent()
    {
      items := items + [NewItem(fields, id, now)];
      RecountWarehouses();
    }

    method UpdateItem(update: Item, now: string)
      modifies this`items, this`warehouses
      ensures items == Updated(old(items), update, now)
      ensures warehouses == Recounted(old(warehouses), items)
      ensures CountsCurrent()
    {
      items := Updated(items, update, now);
      RecountWarehouses();
    }

    method DeleteItem(id: string)
      modifies this`items, this`warehouses
      ensures items == Deleted(old(items), id)
      ensures warehouses == Recounted(old(warehouses), items)
      ensures CountsCurrent()
    {
      items := Deleted(items, id);
      RecountWarehouses();
    }

    method TransferItem(id: string, location: string, now: string)
      modifies this`items, this`warehouses
      ensures items == Transferred(old(items), id, location, now)
      ensures warehouses == Recounted(old(warehouses), items)
      ensures CountsCurrent()
    {
      items := Transferred(items, id, location, now);
      RecountWarehouses();
    }

    /**
     * Appends a warehouse with no items. The count effect does not run (the
     * items did not change), so the counts stay current only when no item
     * already names the new warehouse.
     */
    method AddWarehouse(id: string, name: string)
      modifies this`warehouses
      ensures warehouses == old(warehouses) + [Warehouse(id, name, 0)]
      ensures old(CountsCurrent()) && CountAt(items, name) == 0 ==> CountsCurrent()
    {
      warehouses := warehouses + [Warehouse(id, name, 0)];
    }

    /** `setSelectedWarehouse`, handed to the sidebar. */
    method SelectWarehouse(value: string)
      modifies this`selectedWarehouse
      ensures selectedWarehouse == value
    {
      selectedWarehouse := value;
    }

    /** `filteredItems`, handed to the top bar and the table. */
    function FilteredItems(): (r: seq<Item>)
      reads this
      ensures selectedWarehouse == All ==> r == items
      ensures selectedWarehouse != All ==> r == ItemsAt(items, selectedWarehouse)
    {
      BySelection(items, selectedWarehouse)
    }
  }

  // ---------------------------------------------------------------------------
  // What the handlers do to the counts and the records

  /** Deleting removes every item with the id and keeps every other item, in order. */
  lemma DeletedSpec(items: seq<Item>, id: string, x: Item)
    ensures x in Deleted(items, id) <==> x in items && x.id != id
    ensures |Deleted(items, id)| == |items| - Count(items, HasId(id))
    ensures forall i :: 0 <= i < |items| && items[i].id != id ==> Deleted(items[..i + 1], id) == Deleted(items[..i], id) + [items[i]]
  {
    FilterMembers(items, OtherId(id), x);
    CountComplement(items, id);
    forall i | 0 <= i < |items| && items[i].id != id
      ensures Deleted(items[..i + 1], id) == Deleted(items[..i], id) + [items[i]]
    {
      assert items[..i + 1][..i] == items[..i];
    }
  }

  lemma {:induction false} CountComplement(items: seq<Item>, id: string)
    ensures |Filter(items, OtherId(id))| + Count(items, HasId(id)) == |items|
  {
    if |items| > 0 {
      CountComplement(items[..|items| - 1], id);
    }
  }

  /** Adding an item raises the count of its warehouse by one and leaves every other count alone. */
  lemma AddItemCounts(items: seq<Item>, item: Item, name: string)
    ensures CountAt(items + [item], name) == CountAt(items, name) + (if item.location == name then 1 else 0)
  {
    FilterAppend(items, [item], AtLocation(name));
    assert [item][..0] == [];
  }

  /**
   * Transferring an item with a unique id from `from` to another warehouse
   * `to` moves one unit of count from `from` to `to`; every other
   * warehouse's count is unchanged.
   */
  lemma {:induction false} TransferCounts(items: seq<Item>, k: nat, to: string, now: string, name: string)
    requires k < |items|
    requires forall j :: 0 <= j < |items| && j != k ==> items[j].id != items[k].id
    ensures CountAt(Transferred(items, items[k].id, to, now), name) + (if items[k].location == name then 1 else 0)
         == CountAt(items, name) + (if to == name then 1 else 0)
    decreases |items|
  {
    var n := |items|;
    var t := Transferred(items, items[k].id, to, now);
    assert t[..n - 1] == Transferred(items[..n - 1], items[k].id, to, now);
    CountAtSnoc(t, name);
    CountAtSnoc(items, name);
    if k == n - 1 {
      assert CountAt(t[..n - 1], name) == CountAt(items[..n - 1], name) by {
        UnmovedCounts(items[..n - 1], items[k].id, to, now, name);
      }
    } else {
      TransferCounts(items[..n - 1], k, to, now, name);
    }
  }

  /** The last item counts at its own location only. */
  lemma CountAtSnoc(items: seq<Item>, name: string)
    requires |items| > 0
    ensures CountAt(items, name) ==
      CountAt(items[..|items| - 1], name) + (if items[|items| - 1].location == name then 1 else 0)
  {
  }

  /** When no item has the id, transferring it changes nothing. */
  lemma {:induction false} UnmovedCounts(items: seq<Item>, id: string, to: string, now: string, name: string)
    requires forall j :: 0 <= j < |items| ==> items[j].id != id
    ensures Transferred(items, id, to, now) == items
    ensures CountAt(Transferred(items, id, to, now), name) == CountAt(items, name)
  {
  }
}
