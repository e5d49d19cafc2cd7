// The warehouse sidebar (components/sidebar.tsx): the total count on the
// "All Warehouses" entry, the fill bar of each warehouse scaled to the
// largest count, and the mobile panel's open flag.
module Sidebar {
  import opened Seqs
  import opened Types

  function ItemCountOf(w: Warehouse): nat { w.itemCount }

  /** `warehouses.reduce((sum, w) => sum + w.itemCount, 0)`. */
  function TotalCount(warehouses: seq<Warehouse>): nat
  {
    Sum(warehouses, ItemCountOf)
  }

  /** Every warehouse's count is part of the total, which is zero exactly when every count is. */
  lemma TotalCountSpec(warehouses: seq<Warehouse>)
    ensures forall i :: 0 <= i < |warehouses| ==> warehouses[i].itemCount <= TotalCount(warehouses)
    ensures TotalCount(warehouses) == 0 <==> forall i :: 0 <= i < |warehouses| ==> warehouses[i].itemCount == 0
  {
    forall i | 0 <= i < |warehouses| ensures warehouses[i].itemCount <= TotalCount(warehouses) {
      SumBoundsTerm(warehouses, ItemCountOf, i);
    }
    if forall i :: 0 <= i < |warehouses| ==> warehouses[i].itemCount == 0 {
      ZeroCounts(warehouses);
    }
  }

  lemma {:induction false} ZeroCounts(warehouses: seq<Warehouse>)
    requires forall i :: 0 <= i < |warehouses| ==> warehouses[i].itemCount == 0
    ensures TotalCount(warehouses) == 0
  {
    if |warehouses| > 0 {
      ZeroCounts(warehouses[..|warehouses| - 1]);
    }
  }

  /** `Math.max(...warehouses.map((w) => w.itemCount), 1)`: the largest count, and at least 1. */
  function MaxCount(warehouses: seq<Warehouse>): (r: nat)
    ensures r >= 1
    ensures forall i :: 0 <= i < |warehouses| ==> warehouses[i].itemCount <= r
    ensures r == 1 || exists i :: 0 <= i < |warehouses| && warehouses[i].itemCount == r
  {
    if |warehouses| == 0 then 1
    else
      var m := MaxCount(warehouses[..|warehouses| - 1]);
      var c := warehouses[|warehouses| - 1].itemCount;
      if c > m then c
      else
        assert forall i :: 0 <= i < |warehouses| - 1 ==> warehouses[i] == warehouses[..|warehouses| - 1][i];
        m
  }

  /** `(warehouse.itemCount / maxQuantity) * 100`, the width of the fill bar. */
  function Percentage(w: Warehouse, warehouses: seq<Warehouse>): real
  {
    (w.itemCount as real / MaxCount(warehouses) as real) * 100.0
  }

  /**
   * The fill never divides by zero, lies between 0 and 100 for every listed
   * warehouse, and is full exactly for the warehouses holding the largest count.
   */
  lemma PercentageBounds(warehouses: seq<Warehouse>, i: int)
    requires 0 <= i < |warehouses|
    ensures 0.0 <= Percentage(warehouses[i], warehouses) <= 100.0
    ensures Percentage(warehouses[i], warehouses) == 100.0 <==> warehouses[i].itemCount == MaxCount(warehouses)
  {
    Fraction(warehouses[i].itemCount as real, MaxCount(warehouses) as real);
  }

  /** A count over a larger one of at least 1 is a fraction in [0, 1], and 1 exactly when they are equal. */
  lemma Fraction(c: real, m: real)
    requires 0.0 <= c <= m && 1.0 <= m
    ensures 0.0 <= c / m <= 1.0
    ensures c / m == 1.0 <==> c == m
  {
    var q := c / m;
    assert q * m == c;
  }

  class SidebarState {
    var mobileOpen: bool

    constructor ()
      ensures !mobileOpen
    {
      mobileOpen := false;
    }

    /** `toggleMobileSidebar`. */
    method ToggleMobile()
      modifies this
      ensures mobileOpen == !old(mobileOpen)
    {
      mobileOpen := !mobileOpen;
    }

    /** The overlay's `onClick`. */
    method CloseOverlay()
      modifies this
      ensures !mobileOpen
    {
      mobileOpen := false;
    }

    /**
     * `handleWarehouseSelect`: the chosen value ("all" or a warehouse name)
     * is forwarded unchanged, and the mobile panel ends up closed.
     */
    method Select(value: string) returns (forwarded: string)
      modifies this
      ensures forwarded == value && !mobileOpen
    {
      forwarded := value;
      if mobileOpen {
        mobileOpen := false;
      }
    }
  }
}
