// The single-item transfer dialog (components/transfer-modal.tsx): the
// destinations offered are the warehouses other than the item's own, and
// submitting with a destination chosen asks the store to move the item.
module Transfer {
  import opened Seqs
  import opened Types
  import Page

  function NotNamed(loc: string): Warehouse -> bool
  {
    (w: Warehouse) => w.name != loc
  }

  /** `warehouses.filter((w) => w.name !== loc)`. */
  function Destinations(warehouses: seq<Warehouse>, loc: string): seq<Warehouse>
  {
    Filter(warehouses, NotNamed(loc))
  }

  /**
   * The destinations are exactly the warehouses not named `loc`, in their
   * own order: membership, and distribution over concatenation.
   */
  lemma DestinationsSpec(a: seq<Warehouse>, b: seq<Warehouse>, loc: string, w: Warehouse)
    ensures w in Destinations(a, loc) <==> w in a && w.name != loc
    ensures Destinations(a + b, loc) == Destinations(a, loc) + Destinations(b, loc)
    ensures Destinations([w], loc) == if w.name == loc then [] else [w]
  {
    FilterMembers(a, NotNamed(loc), w);
    FilterAppend(a, b, NotNamed(loc));
  }

  /** What `onTransfer` receives. */
  datatype Request = Request(itemId: string, location: string)

  /** The submit button's `disabled={!newLocation}`. */
  predicate SubmitDisabled(newLocation: string)
  {
    newLocation == ""
  }

  /**
   * `handleSubmit`: no transfer (and the dialog stays open) without a
   * destination, and otherwise one request for this item to that destination.
   */
  function Submitted(item: Item, newLocation: string): (r: Option<Request>)
    ensures r.None? <==> newLocation == ""
    ensures r.Some? ==> r.value.itemId == item.id && r.value.location == newLocation
  {
    if newLocation == "" then None else Some(Request(item.id, newLocation))
  }

  /** The disabled button and the guard in `handleSubmit` agree. */
  lemma DisabledIffNoRequest(item: Item, newLocation: string)
    ensures SubmitDisabled(newLocation) <==> Submitted(item, newLocation).None?
  {
  }

  /**
   * A request made from an offered destination, applied by the store, puts
   * the item somewhere other than where it was and stamps it.
   */
  lemma OfferedDestinationMoves(items: seq<Item>, k: nat, warehouses: seq<Warehouse>, w: Warehouse, now: string)
    requires k < |items|
    requires w in Destinations(warehouses, items[k].location) && w.name != ""
    ensures var r := Submitted(items[k], w.name);
      && r.Some?
      && Page.Transferred(items, r.value.itemId, r.value.location, now)[k] == items[k].(location := w.name, lastUpdated := now)
      && w.name != items[k].location
  {
    FilterMembers(warehouses, NotNamed(items[k].location), w);
  }
}
