// The batch transfer dialog (components/batch-transfer-modal.tsx): the
// selected items are grouped by their current location, the destinations
// offered depend on whether they all share one location, and submitting
// with a destination chosen asks the store to move every selected item.
module BatchTransfer {
  import opened Seqs
  import opened Types
  import Transfer

  function Locations(items: seq<Item>): (r: seq<string>)
    ensures |r| == |items| && forall i :: 0 <= i < |items| ==> r[i] == items[i].location
  {
    seq(|items|, i requires 0 <= i < |items| => items[i].location)
  }

  /** The accumulator of the grouping: one list per location, and the locations in the order they became keys. */
  datatype Grouping = Grouping(groups: map<string, seq<Item>>, keys: seq<string>)

  /**
   * The grouping as it is meant to be: each item is appended to the list of
   * its location, which is created on the location's first occurrence.
   */
  function Grouped(items: seq<Item>): Grouping
  {
    if |items| == 0 then Grouping(map[], [])
    else
      var g, last := Grouped(items[..|items| - 1]), items[|items| - 1];
      var loc := last.location;
      if loc in g.groups then Grouping(g.groups[loc := g.groups[loc] + [last]], g.keys)
      else Grouping(g.groups[loc := [last]], g.keys + [loc])
  }

  lemma LocationsSnoc(items: seq<Item>)
    requires |items| > 0
    ensures Locations(items) == Locations(items[..|items| - 1]) + [items[|items| - 1].location]
  {
  }

  /**
   * Each selected item lands in the group of its own location: the keys are
   * the distinct locations in order of first appearance, and each group is
   * exactly the selected items at that location, in selection order.
   */
  lemma {:induction false} GroupedSpec(items: seq<Item>)
    ensures Grouped(items).keys == Dedup(Locations(items))
    ensures forall loc :: loc in Grouped(items).groups <==> loc in Grouped(items).keys
    ensures forall loc :: loc in Grouped(items).groups ==> Grouped(items).groups[loc] == ItemsAt(items, loc)
  {
    if |items| > 0 {
      var prefix, last := items[..|items| - 1], items[|items| - 1];
      GroupedSpec(prefix);
      LocationsSnoc(items);
      DedupSnoc(Locations(prefix), last.location);
      DedupMembers(Locations(prefix));
      var g := Grouped(prefix);
      forall loc | loc in Grouped(items).groups
        ensures Grouped(items).groups[loc] == ItemsAt(items, loc)
      {
        assert ItemsAt(items, loc) == ItemsAt(prefix, loc) + (if last.location == loc then [last] else []);
        if loc == last.location && loc !in g.groups {
          forall i | 0 <= i < |prefix| ensures !AtLocation(loc)(prefix[i]) {
            assert Locations(prefix)[i] == prefix[i].location;
          }
          FilterNone(prefix, AtLocation(loc));
        }
      }
    }
  }

  /** The group sizes added up over the keys. */
  function GroupTotal(groups: map<string, seq<Item>>, keys: seq<string>): nat
  {
    if |keys| == 0 then 0
    else
      var k := keys[|keys| - 1];
      GroupTotal(groups, keys[..|keys| - 1]) + (if k in groups then |groups[k]| else 0)
  }

  /** Groups under names outside the keys do not count. */
  lemma {:induction false} GroupTotalOther(groups: map<string, seq<Item>>, keys: seq<string>, loc: string, g: seq<Item>)
    requires loc !in keys
    ensures GroupTotal(groups[loc := g], keys) == GroupTotal(groups, keys)
  {
    if |keys| > 0 {
      GroupTotalOther(groups, keys[..|keys| - 1], loc, g);
    }
  }

  /** One more item in the group of a key that occurs once adds one to the total. */
  lemma {:induction false} GroupTotalPush(groups: map<string, seq<Item>>, keys: seq<string>, loc: string, x: Item)
    requires Distinct(keys) && loc in keys && loc in groups
    ensures GroupTotal(groups[loc := groups[loc] + [x]], keys) == GroupTotal(groups, keys) + 1
  {
    var prefix, k := keys[..|keys| - 1], keys[|keys| - 1];
    if k == loc {
      assert loc !in prefix;
      GroupTotalOther(groups, prefix, loc, groups[loc] + [x]);
    } else {
      assert loc in prefix;
      DistinctPrefix(prefix, [k]);
      assert keys == prefix + [k];
      GroupTotalPush(groups, prefix, loc, x);
    }
  }

  /** The group sizes add up to the number of selected items. */
  lemma {:induction false} GroupTotalIsCount(items: seq<Item>)
    ensures GroupTotal(Grouped(items).groups, Grouped(items).keys) == |items|
  {
    if |items| > 0 {
      var prefix, last := items[..|items| - 1], items[|items| - 1];
      var g := Grouped(prefix);
      GroupTotalIsCount(prefix);
      GroupedSpec(prefix);
      DedupMembers(Locations(prefix));
      if last.location in g.groups {
        GroupTotalPush(g.groups, g.keys, last.location, last);
      } else {
        GroupTotalOther(g.groups, g.keys, last.location, [last]);
        assert (g.keys + [last.location])[..|g.keys|] == g.keys;
      }
    }
  }

  /**
   * The `reduce` over the selected items, with an accumulator that has no
   * inherited members: a map updated in place and the keys in insertion
   * order (what `Object.keys` then lists).
   */
  method GroupByLocation(items: seq<Item>) returns (groups: map<string, seq<Item>>, keys: seq<string>)
    ensures Grouping(groups, keys) == Grouped(items)
    ensures keys == Dedup(Locations(items))
    ensures forall loc :: loc in groups <==> loc in Locations(items)
    ensures forall loc :: loc in groups ==> groups[loc] == ItemsAt(items, loc)
  {
    groups, keys := map[], [];
    for i := 0 to |items|
      invariant Grouping(groups, keys) == Grouped(items[..i])
    {
      assert items[..i + 1][..i] == items[..i];
      ghost var g := Grouped(items[..i + 1]);
      var loc := items[i].location;
      assert g == if loc in groups then Grouping(groups[loc := groups[loc] + [items[i]]], keys)
                  else Grouping(groups[loc := [items[i]]], keys + [loc]);
      if loc !in groups {
        groups := groups[loc := []];
        keys := keys + [loc];
      }
      assert groups[loc] + [items[i]] == g.groups[loc];
      groups := groups[loc := groups[loc] + [items[i]]];
    }
    assert items[..|items|] == items;
    GroupedSpec(items);
    DedupMembers(Locations(items));
  }

  // ---------------------------------------------------------------------------
  // The grouping as written

  /** The members every object literal inherits from `Object.prototype`. */
  const Inherited: set<string> := {
    "constructor", "hasOwnProperty", "isPrototypeOf", "propertyIsEnumerable",
    "toLocaleString", "toString", "valueOf", "__proto__",
    "__defineGetter__", "__defineSetter__", "__lookupGetter__", "__lookupSetter__"
  }

  /**
   * The `reduce` as written, into the object literal `{}`: for a location
   * that names an inherited member, `acc[item.location]` is that member and
   * so is truthy, no list is created, and the `push` that follows throws a
   * `TypeError` (the result is then `None`).
   */
  function GroupedAsWritten(items: seq<Item>): (r: Option<Grouping>)
  {
    if |items| == 0 then Some(Grouping(map[], []))
    else
      var acc, last := GroupedAsWritten(items[..|items| - 1]), items[|items| - 1];
      var loc := last.location;
      if acc.None? then None
      else if loc in acc.value.groups then Some(Grouping(acc.value.groups[loc := acc.value.groups[loc] + [last]], acc.value.keys))
      else if loc in Inherited then None
      else Some(Grouping(acc.value.groups[loc := [last]], acc.value.keys + [loc]))
  }

  /** No selected item sits in a warehouse named after an inherited member. */
  predicate NoneInherited(items: seq<Item>)
  {
    forall i :: 0 <= i < |items| ==> items[i].location !in Inherited
  }

  lemma NoneInheritedSnoc(items: seq<Item>)
    requires |items| > 0
    ensures NoneInherited(items) <==> NoneInherited(items[..|items| - 1]) && items[|items| - 1].location !in Inherited
  {
    var prefix := items[..|items| - 1];
    if !NoneInherited(items) {
      var i :| 0 <= i < |items| && items[i].location in Inherited;
      if i < |prefix| {
        assert prefix[i] == items[i];
      }
    }
  }

  /** A location that already has a group is the location of an earlier item. */
  lemma GroupedKeyIsLocation(items: seq<Item>, loc: string)
    requires loc in Grouped(items).groups
    ensures exists i :: 0 <= i < |items| && items[i].location == loc
  {
    GroupedSpec(items);
    DedupMembers(Locations(items));
    var i :| 0 <= i < |items| && Locations(items)[i] == loc;
  }

  /**
   * The code as written throws exactly when some selected item sits in a
   * warehouse named after an inherited member, and otherwise groups as intended.
   */
  lemma {:induction false} GroupedAsWrittenSpec(items: seq<Item>)
    ensures GroupedAsWritten(items) == if NoneInherited(items) then Some(Grouped(items)) else None
  {
    if |items| > 0 {
      var prefix, last := items[..|items| - 1], items[|items| - 1];
      GroupedAsWrittenSpec(prefix);
      NoneInheritedSnoc(items);
      if NoneInherited(prefix) && last.location in Grouped(prefix).groups {
        GroupedKeyIsLocation(prefix, last.location);
      }
    }
  }

  /** One item in a warehouse named "constructor" (a name the add-warehouse dialog accepts) makes the dialog throw. */
  lemma ConstructorLocationThrows(item: Item)
    requires item.location == "constructor"
    ensures GroupedAsWritten([item]) == None
    ensures Grouped([item]).groups == map["constructor" := [item]]
  {
    assert [item][..0] == [];
  }

  // ---------------------------------------------------------------------------
  // Destinations and submit

  /** `currentLocations`. */
  function CurrentLocations(items: seq<Item>): seq<string>
  {
    Grouped(items).keys
  }

  /** A list has a single distinct element exactly when it is non-empty and constant. */
  lemma DedupSingle(s: seq<string>)
    ensures |Dedup(s)| == 1 <==> |s| > 0 && forall i :: 0 <= i < |s| ==> s[i] == s[0]
    ensures |Dedup(s)| == 1 ==> Dedup(s)[0] == s[0]
  {
    var d := Dedup(s);
    DedupMembers(s);
    if |s| > 0 {
      assert s[0] in d;
    }
    if |d| == 1 {
      forall i | 0 <= i < |s| ensures s[i] == s[0] {
        assert s[i] in d;
      }
    }
  }

  /** There is exactly one current location when the selection is non-empty and shares one location. */
  lemma SingleLocation(items: seq<Item>)
    ensures |CurrentLocations(items)| == 1 <==> |items| > 0 && forall i :: 0 <= i < |items| ==> items[i].location == items[0].location
    ensures |CurrentLocations(items)| == 1 ==> CurrentLocations(items)[0] == items[0].location
  {
    GroupedSpec(items);
    var ls := Locations(items);
    DedupSingle(ls);
    assert (forall i :: 0 <= i < |ls| ==> ls[i] == ls[0]) <==> (forall i :: 0 <= i < |items| ==> items[i].location == items[0].location);
  }

  /** `availableWarehouses`: with one current location, the other warehouses; otherwise all of them. */
  function Available(warehouses: seq<Warehouse>, items: seq<Item>): (r: seq<Warehouse>)
  {
    var locs := CurrentLocations(items);
    if |locs| == 1 then Transfer.Destinations(warehouses, locs[0]) else warehouses
  }

  /**
   * A warehouse is offered exactly when the selection is spread over several
   * locations (or empty), or it is not the one location the selection shares.
   */
  lemma AvailableSpec(warehouses: seq<Warehouse>, items: seq<Item>, w: Warehouse)
    ensures w in Available(warehouses, items) <==>
      w in warehouses &&
      (!(|items| > 0 && forall i :: 0 <= i < |items| ==> items[i].location == items[0].location) || w.name != items[0].location)
  {
    SingleLocation(items);
    Transfer.DestinationsSpec(warehouses, [], if |CurrentLocations(items)| == 1 then CurrentLocations(items)[0] else "", w);
  }

  /** What `onTransferItems` receives. */
  datatype BatchRequest = BatchRequest(itemIds: seq<string>, location: string)

  /**
   * `handleSubmit`: no transfer (and the dialog stays open) without a
   * destination; otherwise the ids of all selected items, in order, and the destination.
   */
  function Submitted(items: seq<Item>, newLocation: string): (r: Option<BatchRequest>)
    ensures r.None? <==> newLocation == ""
    ensures r.Some? ==> r.value.location == newLocation && r.value.itemIds == Ids(items)
  {
    if newLocation == "" then None else Some(BatchRequest(Ids(items), newLocation))
  }

  /** The submit button's `disabled={!newLocation}` agrees with the guard in `handleSubmit`. */
  lemma DisabledIffNoRequest(items: seq<Item>, newLocation: string)
    ensures Transfer.SubmitDisabled(newLocation) <==> Submitted(items, newLocation).None?
  {
  }

  class BatchTransferModal {
    const selected: seq<Item>
    var newLocation: string

    constructor (selected: seq<Item>)
      ensures this.selected == selected && newLocation == ""
    {
      this.selected := selected;
      newLocation := "";
    }

    /** The select's `onValueChange`. */
    method Choose(location: string)
      modifies this
      ensures newLocation == location
    {
      newLocation := location;
    }

    method Submit() returns (request: Option<BatchRequest>)
      ensures request == Submitted(selected, newLocation)
    {
      if newLocation == "" {
        return None;
      }
      request := Some(BatchRequest(Ids(selected), newLocation));
    }
  }
}
