// The sortable inventory table (components/inventory-table.tsx, 19-49): the
// sort column and direction the header clicks select, and the comparator
// `[...items].sort(...)` orders a copy of the items by. Strings are compared
// after `toLowerCase`, quantities as numbers, and `lastUpdated` by its parsed
// timestamp; a missing category, or a timestamp that does not parse (NaN),
// is neither smaller nor larger than anything.
module InventoryTable {
  import opened Types
  import opened Text

  datatype SortField = Name | Sku | Quantity | Location | Category | LastUpdated

  datatype Direction = Asc | Desc

  /** The other direction. */
  function Flipped(d: Direction): (r: Direction)
    ensures r != d
  {
    if d == Asc then Desc else Asc
  }

  /**
   * `handleSort(field)` from the current column and direction: the same
   * column flips the direction, another column is selected ascending.
   */
  function Resorted(current: SortField, dir: Direction, field: SortField): (r: (SortField, Direction))
    ensures r.0 == field
    ensures current == field ==> r.1 != dir
    ensures current != field ==> r.1 == Asc
  {
    if current == field then (field, Flipped(dir)) else (field, Asc)
  }

  /** Clicking the same header twice restores the direction. */
  lemma ResortedTwice(current: SortField, dir: Direction)
    ensures var r := Resorted(current, dir, current); Resorted(r.0, r.1, current) == (current, dir)
  {
  }

  // ---------------------------------------------------------------------------
  // The comparator

  /** The value `a[sortField]` the comparator looks at; `Undefined` is an absent category or a NaN time. */
  datatype SortKey = Str(s: string) | Num(n: int) | Undefined

  /**
   * The key of an item for a column. `time` stands for
   * `new Date(text).getTime()`, `None` for NaN.
   */
  function KeyOf(item: Item, field: SortField, time: string -> Option<int>): SortKey
  {
    match field
    case Name => Str(item.name)
    case Sku => Str(item.sku)
    case Quantity => Num(item.quantity)
    case Location => Str(item.location)
    case Category => if item.category.Some? then Str(item.category.value) else Undefined
    case LastUpdated => if time(item.lastUpdated).Some? then Num(time(item.lastUpdated).value) else Undefined
  }

  /**
   * `aValue < bValue` after lower-casing two strings: strings by character
   * code, numbers numerically, and false whenever a value is undefined.
   */
  predicate KeyLess(a: SortKey, b: SortKey)
  {
    match (a, b)
    case (Str(x), Str(y)) => StrLess(ToLower(x), ToLower(y))
    case (Num(x), Num(y)) => x < y
    case _ => false
  }

  /** The comparator passed to `sort`. */
  function Compare(a: Item, b: Item, field: SortField, dir: Direction, time: string -> Option<int>): (r: int)
    ensures r in {-1, 0, 1}
    ensures r == 0 <==> !KeyLess(KeyOf(a, field, time), KeyOf(b, field, time)) &&
                        !KeyLess(KeyOf(b, field, time), KeyOf(a, field, time))
    ensures r < 0 <==> if dir == Asc then KeyLess(KeyOf(a, field, time), KeyOf(b, field, time))
                       else KeyLess(KeyOf(b, field, time), KeyOf(a, field, time))
  {
    var ka, kb := KeyOf(a, field, time), KeyOf(b, field, time);
    KeyLessAsymmetric(ka, kb);
    if KeyLess(ka, kb) then (if dir == Asc then -1 else 1)
    else if KeyLess(kb, ka) then (if dir == Asc then 1 else -1)
    else 0
  }

  /** Swapping the arguments negates the comparison. */
  lemma CompareAntisymmetric(a: Item, b: Item, field: SortField, dir: Direction, time: string -> Option<int>)
    ensures Compare(a, b, field, dir, time) == -Compare(b, a, field, dir, time)
  {
    KeyLessAsymmetric(KeyOf(a, field, time), KeyOf(b, field, time));
  }

  lemma KeyLessAsymmetric(a: SortKey, b: SortKey)
    ensures !(KeyLess(a, b) && KeyLess(b, a))
  {
    if a.Str? && b.Str? && KeyLess(a, b) && KeyLess(b, a) {
      StrLessTransitive(ToLower(a.s), ToLower(b.s), ToLower(a.s));
      StrLessIrreflexive(ToLower(a.s));
    }
  }

  /** Under the category column, an item without a category compares equal to every item. */
  lemma MissingCategoryTies(a: Item, b: Item, dir: Direction, time: string -> Option<int>)
    requires a.category.None?
    ensures Compare(a, b, Category, dir, time) == 0 && Compare(b, a, Category, dir, time) == 0
  {
  }

  /** Names, SKUs and locations are compared without regard to case. */
  lemma CompareIgnoresCase(a: Item, a': Item, b: Item, field: SortField, dir: Direction, time: string -> Option<int>)
    requires field in {Name, Sku, Location}
    requires ToLower(KeyOf(a, field, time).s) == ToLower(KeyOf(a', field, time).s)
    ensures Compare(a, b, field, dir, time) == Compare(a', b, field, dir, time)
  {
  }

  // ---------------------------------------------------------------------------
  // A stable sort

  /** Puts `x` after every element of the sorted `s` that it does not strictly precede. */
  function Insert<T>(s: seq<T>, x: T, before: (T, T) -> bool): (r: seq<T>)
    ensures multiset(r) == multiset(s) + multiset{x}
  {
    if |s| == 0 then [x]
    else
      var init, last := s[..|s| - 1], s[|s| - 1];
      assert s == init + [last];
      if before(x, last) then Insert(init, x, before) + [last] else s + [x]
  }

  /** Insertion sort: each element goes in after the ones it does not precede, so equal elements keep their order. */
  function SortBy<T>(s: seq<T>, before: (T, T) -> bool): (r: seq<T>)
    ensures multiset(r) == multiset(s)
  {
    if |s| == 0 then []
    else
      assert s == s[..|s| - 1] + [s[|s| - 1]];
      Insert(SortBy(s[..|s| - 1], before), s[|s| - 1], before)
  }

  /** No element strictly precedes one listed before it. */
  ghost predicate Sorted<T>(s: seq<T>, before: (T, T) -> bool)
  {
    forall i, j :: 0 <= i < j < |s| ==> !before(s[j], s[i])
  }

  /**
   * `before` is a strict weak order on the values in `dom`: irreflexive,
   * transitive, and whenever a precedes c, any b is after a or before c.
   */
  ghost predicate WeakOrder<T>(before: (T, T) -> bool, dom: seq<T>)
  {
    && (forall a :: a in dom ==> !before(a, a))
    && (forall a, b, c :: a in dom && b in dom && c in dom && before(a, b) && before(b, c) ==> before(a, c))
    && (forall a, b, c :: a in dom && b in dom && c in dom && before(a, c) ==> before(a, b) || before(b, c))
  }

  lemma {:induction false} InsertSorted<T>(s: seq<T>, x: T, before: (T, T) -> bool, dom: seq<T>)
    requires WeakOrder(before, dom)
    requires x in dom && forall i :: 0 <= i < |s| ==> s[i] in dom
    requires Sorted(s, before)
    ensures Sorted(Insert(s, x, before), before)
  {
    if |s| > 0 {
      var init, last := s[..|s| - 1], s[|s| - 1];
      var r := Insert(s, x, before);
      if before(x, last) {
        assert forall i :: 0 <= i < |init| ==> init[i] == s[i];
        InsertSorted(init, x, before, dom);
        var r' := Insert(init, x, before);
        assert r == r' + [last];
        forall i | 0 <= i < |r'|
          ensures !before(last, r'[i])
        {
          assert r'[i] in multiset(r');
          if r'[i] != x {
            assert r'[i] in multiset(init);
            var k :| 0 <= k < |init| && init[k] == r'[i];
            assert s[k] == r'[i];
          }
        }
      } else {
        assert r == s + [x];
        forall i | 0 <= i < |s|
          ensures !before(x, s[i])
        {
          if i < |s| - 1 {
            assert !before(last, s[i]);
          }
        }
      }
    }
  }

  lemma {:induction false} SortBySorted<T>(s: seq<T>, before: (T, T) -> bool, dom: seq<T>)
    requires WeakOrder(before, dom)
    requires forall i :: 0 <= i < |s| ==> s[i] in dom
    ensures Sorted(SortBy(s, before), before)
  {
    if |s| > 0 {
      var init := s[..|s| - 1];
      SortBySorted(init, before, dom);
      var r := SortBy(init, before);
      forall i | 0 <= i < |r|
        ensures r[i] in dom
      {
        assert r[i] in multiset(init);
        var k :| 0 <= k < |init| && init[k] == r[i];
        assert s[k] == r[i];
      }
      InsertSorted(r, s[|s| - 1], before, dom);
    }
  }

  // ---------------------------------------------------------------------------
  // The table's order

  /** `compare(a, b) < 0`: the comparator puts `a` strictly first. */
  function Before(field: SortField, dir: Direction, time: string -> Option<int>): (Item, Item) -> bool
  {
    (a: Item, b: Item) => Compare(a, b, field, dir, time) < 0
  }

  /** `sortedItems`: a sorted copy of the items. */
  function SortedItems(items: seq<Item>, field: SortField, dir: Direction, time: string -> Option<int>): seq<Item>
  {
    SortBy(items, Before(field, dir, time))
  }

  /** Every item has a key under the column: no missing category and no unparsable time. */
  ghost predicate KeysDefined(items: seq<Item>, field: SortField, time: string -> Option<int>)
  {
    forall i :: 0 <= i < |items| ==> KeyOf(items[i], field, time) != Undefined
  }

  /** The keys of one column, where defined, are all strings or all numbers. */
  lemma SameKind(a: Item, b: Item, field: SortField, time: string -> Option<int>)
    requires KeyOf(a, field, time) != Undefined && KeyOf(b, field, time) != Undefined
    ensures KeyOf(a, field, time).Str? <==> KeyOf(b, field, time).Str?
  {
  }

  /** The key order is a strict weak order on keys of one kind. */
  lemma KeyOrder(a: SortKey, b: SortKey, c: SortKey)
    requires (a.Str? && b.Str? && c.Str?) || (a.Num? && b.Num? && c.Num?)
    ensures !KeyLess(a, a)
    ensures KeyLess(a, b) && KeyLess(b, c) ==> KeyLess(a, c)
    ensures KeyLess(a, c) ==> KeyLess(a, b) || KeyLess(b, c)
  {
    if a.Str? {
      var x, y, z := ToLower(a.s), ToLower(b.s), ToLower(c.s);
      StrLessIrreflexive(x);
      if StrLess(x, y) && StrLess(y, z) {
        StrLessTransitive(x, y, z);
      }
      if StrLess(x, z) && !StrLess(x, y) && !StrLess(y, z) {
        if x != y && y != z {
          StrLessTotal(x, y);
          StrLessTotal(y, z);
          StrLessTransitive(z, y, x);
          StrLessTransitive(x, z, x);
        }
      }
    }
  }

  /** With every key defined, the comparator orders the items as a strict weak order. */
  lemma BeforeIsWeakOrder(items: seq<Item>, field: SortField, dir: Direction, time: string -> Option<int>)
    requires KeysDefined(items, field, time)
    ensures WeakOrder(Before(field, dir, time), items)
  {
    var before := Before(field, dir, time);
    forall a, b, c | a in items && b in items && c in items
      ensures !before(a, a)
      ensures before(a, b) && before(b, c) ==> before(a, c)
      ensures before(a, c) ==> before(a, b) || before(b, c)
    {
      var ka, kb, kc := KeyOf(a, field, time), KeyOf(b, field, time), KeyOf(c, field, time);
      SameKind(a, b, field, time);
      SameKind(b, c, field, time);
      if dir == Asc {
        KeyOrder(ka, kb, kc);
      } else {
        KeyOrder(kc, kb, ka);
      }
    }
  }

  /**
   * The sorted copy holds the same items, each as often; and when every item
   * has a key under the column, no item is listed after one with a larger
   * key (ascending) or a smaller key (descending).
   */
  lemma SortedItemsSpec(items: seq<Item>, field: SortField, dir: Direction, time: string -> Option<int>)
    ensures multiset(SortedItems(items, field, dir, time)) == multiset(items)
    ensures KeysDefined(items, field, time) ==>
      var r := SortedItems(items, field, dir, time);
      forall i, j :: 0 <= i < j < |r| ==>
        if dir == Asc then !KeyLess(KeyOf(r[j], field, time), KeyOf(r[i], field, time))
        else !KeyLess(KeyOf(r[i], field, time), KeyOf(r[j], field, time))
  {
    if KeysDefined(items, field, time) {
      BeforeIsWeakOrder(items, field, dir, time);
      SortBySorted(items, Before(field, dir, time), items);
    }
  }

  // ---------------------------------------------------------------------------
  // The table's state

  class SortState {
    var field: SortField
    var direction: Direction

    /** The table opens sorted by name, ascending. */
    constructor ()
      ensures field == Name && direction == Asc
    {
      field, direction := Name, Asc;
    }

    /** A click on a column header. */
    method HandleSort(f: SortField)
      modifies this
      ensures (field, direction) == Resorted(old(field), old(direction), f)
    {
      if field == f {
        direction := if direction == Asc then Desc else Asc;
      } else {
        field, direction := f, Asc;
      }
    }

    /** The rows shown, for the current column and direction. */
    function Rows(items: seq<Item>, time: string -> Option<int>): (r: seq<Item>)
      reads this
      ensures multiset(r) == multiset(items)
    {
      SortedItems(items, field, direction, time)
    }
  }
}
