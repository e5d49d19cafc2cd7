// The scan result dialog (components/barcode-result-modal.tsx): the scanned
// code is looked up as a SKU; a match offers to edit that item, no match
// offers to add a new one.
module BarcodeResult {
  import opened Seqs
  import opened Types

  /** The code the simulated scanner produces, which gets a note saying so. */
  const DemoCode: string := "123456789012"

  function HasSku(code: string): Item -> bool
  {
    (item: Item) => item.sku == code
  }

  /** `items.find((item) => item.sku === scannedCode)`: exact, case-sensitive comparison. */
  function MatchingItem(items: seq<Item>, code: string): (r: Option<Item>)
    ensures r.None? <==> forall i :: 0 <= i < |items| ==> items[i].sku != code
    ensures r.Some? ==>
      exists i :: 0 <= i < |items| && items[i] == r.value && r.value.sku == code && forall j :: 0 <= j < i ==> items[j].sku != code
  {
    var k := FindIndex(items, HasSku(code));
    if k < 0 then None else Some(items[k])
  }

  /** The first match is the first in the list: one in the front part wins over any later one. */
  lemma MatchingItemAppend(a: seq<Item>, b: seq<Item>, code: string)
    ensures MatchingItem(a + b, code) == if MatchingItem(a, code).Some? then MatchingItem(a, code) else MatchingItem(b, code)
  {
    FindIndexAppend(a, b, HasSku(code));
    var i, m := FindIndex(a, HasSku(code)), FindIndex(b, HasSku(code));
    if i >= 0 {
      assert (a + b)[i] == a[i];
    } else if m >= 0 {
      assert (a + b)[|a| + m] == b[m];
    }
  }

  /** What the dialog offers. */
  datatype Action = EditItem(item: Item) | AddNewItem

  /** A match offers only "View/Edit Item" for that very item; no match offers only "Add New Item". */
  function Actions(items: seq<Item>, code: string): (r: seq<Action>)
    ensures |r| == 1
    ensures r[0].AddNewItem? <==> forall i :: 0 <= i < |items| ==> items[i].sku != code
    ensures r[0].EditItem? ==> r[0].item in items && r[0].item.sku == code && MatchingItem(items, code) == Some(r[0].item)
  {
    match MatchingItem(items, code)
    case Some(item) => [EditItem(item)]
    case None => [AddNewItem]
  }

  /** `item.category || "-"`, the category line of the found item. */
  function CategoryShown(item: Item): (r: string)
    ensures r == "-" <==> item.category.None? || item.category == Some("") || item.category == Some("-")
    ensures r != "-" ==> item.category == Some(r)
  {
    if item.category.Some? && item.category.value != "" then item.category.value else "-"
  }

  /** The demo note shows exactly for the demo code. */
  predicate ShowsDemoNote(code: string)
  {
    code == DemoCode
  }
}
