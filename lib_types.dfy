// The records of the inventory (lib/types.ts) and the derived notions every
// component shares: the category label an item is shown under, the distinct
// labels in order of first appearance, and the "all"/warehouse selection.
module Types {
  import opened Seqs

  datatype Option<+T> = None | Some(value: T)

  /** An inventory record. `category` is optional; `lastUpdated` is an ISO timestamp text. */
  datatype Item = Item(
    id: string,
    name: string,
    sku: string,
    quantity: nat,
    location: string,
    category: Option<string>,
    lastUpdated: string)

  /** A warehouse; `itemCount` is derived from the items by the page. */
  datatype Warehouse = Warehouse(id: string, name: string, itemCount: nat)

  const Uncategorized: string := "Uncategorized"

  /** The selection value meaning "every warehouse". */
  const All: string := "all"

  /** `item.category || "Uncategorized"`: an absent or empty category reads as "Uncategorized". */
  function CategoryLabel(item: Item): string
  {
    if item.category.Some? && item.category.value != "" then item.category.value else Uncategorized
  }

  /** The label is never empty; it is the category itself unless that is absent or empty. */
  lemma CategoryLabelSpec(item: Item)
    ensures CategoryLabel(item) != ""
    ensures CategoryLabel(item) == Uncategorized <==>
      item.category.None? || item.category.value == "" || item.category.value == Uncategorized
    ensures CategoryLabel(item) != Uncategorized ==> item.category == Some(CategoryLabel(item))
  {
  }

  function Labels(items: seq<Item>): (r: seq<string>)
    ensures |r| == |items| && forall i :: 0 <= i < |items| ==> r[i] == CategoryLabel(items[i])
  {
    seq(|items|, i requires 0 <= i < |items| => CategoryLabel(items[i]))
  }

  /**
   * `new Set(items.map(item => item.category || "Uncategorized"))`, iterated
   * in insertion order: the distinct labels in order of first appearance.
   */
  function CategoryLabels(items: seq<Item>): seq<string>
  {
    Dedup(Labels(items))
  }

  /** The labels are distinct, are exactly the labels of the items, and come in order of first appearance. */
  lemma CategoryLabelsSpec(items: seq<Item>)
    ensures Distinct(CategoryLabels(items))
    ensures forall c :: c in CategoryLabels(items) <==> exists i :: 0 <= i < |items| && CategoryLabel(items[i]) == c
    ensures forall c :: c in CategoryLabels(items) ==> c in Labels(items)
    ensures forall i, j :: 0 <= i < j < |CategoryLabels(items)| ==>
      FirstIndex(Labels(items), CategoryLabels(items)[i]) < FirstIndex(Labels(items), CategoryLabels(items)[j])
  {
    var ls := Labels(items);
    DedupMembers(ls);
    DedupFirstOccurrence(ls);
    forall c | c in CategoryLabels(items)
      ensures exists i :: 0 <= i < |items| && CategoryLabel(items[i]) == c
    {
      var i := FirstIndex(ls, c);
    }
    forall c, i | 0 <= i < |items| && CategoryLabel(items[i]) == c
      ensures c in CategoryLabels(items)
    {
      assert ls[i] == c;
    }
  }

  lemma LabelsSnoc(items: seq<Item>, it: Item)
    ensures Labels(items + [it]) == Labels(items) + [CategoryLabel(it)]
  {
  }

  lemma CategoryLabelsSnoc(items: seq<Item>, it: Item)
    ensures CategoryLabels(items + [it]) ==
      if CategoryLabel(it) in CategoryLabels(items) then CategoryLabels(items)
      else CategoryLabels(items) + [CategoryLabel(it)]
  {
    LabelsSnoc(items, it);
    DedupSnoc(Labels(items), CategoryLabel(it));
  }

  // ---------------------------------------------------------------------------
  // Predicates the components filter by

  function AtLocation(loc: string): Item -> bool
  {
    (item: Item) => item.location == loc
  }

  function InCategory(c: string): Item -> bool
  {
    (item: Item) => CategoryLabel(item) == c
  }

  function QuantityOf(item: Item): nat { item.quantity }

  /** `items.map((item) => item.id)`. */
  function Ids(items: seq<Item>): (r: seq<string>)
    ensures |r| == |items| && forall i :: 0 <= i < |items| ==> r[i] == items[i].id
  {
    seq(|items|, i requires 0 <= i < |items| => items[i].id)
  }

  /** The items stored under the warehouse name `loc`, in list order. */
  function ItemsAt(items: seq<Item>, loc: string): seq<Item>
  {
    Filter(items, AtLocation(loc))
  }

  /**
   * `selected === "all" ? items : items.filter(item => item.location === selected)`,
   * written out the same way in the page, the dashboard and the quick stats.
   */
  function BySelection(items: seq<Item>, selected: string): (r: seq<Item>)
    ensures selected == All ==> r == items
    ensures selected != All ==> r == ItemsAt(items, selected)
  {
    if selected == All then items else ItemsAt(items, selected)
  }

  /**
   * The selection filter keeps exactly the selected items, in order: it
   * distributes over concatenation, keeps an item at the selection and drops
   * any other, and applying it twice is applying it once.
   */
  lemma BySelectionSpec(a: seq<Item>, b: seq<Item>, selected: string, x: Item)
    ensures BySelection(a + b, selected) == BySelection(a, selected) + BySelection(b, selected)
    ensures BySelection([x], selected) == if selected == All || x.location == selected then [x] else []
    ensures x in BySelection(a, selected) <==> x in a && (selected == All || x.location == selected)
    ensures BySelection(BySelection(a, selected), selected) == BySelection(a, selected)
  {
    if selected != All {
      FilterAppend(a, b, AtLocation(selected));
      FilterMembers(a, AtLocation(selected), x);
      FilterIdempotent(a, AtLocation(selected));
      assert [x][..0] == [];
    }
  }
}
