// What the scene builder's bookkeeping functions mean, stated against the
// list operations they stand for (components/graph-visualizer.tsx, 58-163):
// the warehouse lookup is `warehouses.find` by name, the placed items and
// each node's connections are filters of the item list, a category's size is
// `items.filter(...).length`, and the edge list holds two edges per placed
// item, in item order.
module GraphFacts {
  import opened Seqs
  import opened Types
  import opened GraphScene

  /** The lookup finds the first warehouse carrying the name, and -1 when none does. */
  lemma {:induction false} MatchIndexIsFirstMatch(warehouses: seq<Warehouse>, loc: string)
    ensures var t := MatchIndex(warehouses, loc);
      && (t >= 0 ==> warehouses[t].name == loc)
      && (forall j :: 0 <= j < |warehouses| && (t < 0 || j < t) ==> warehouses[j].name != loc)
  {
    if |warehouses| > 0 && warehouses[0].name != loc {
      MatchIndexIsFirstMatch(warehouses[1..], loc);
      var t := MatchIndex(warehouses, loc);
      forall j | 0 < j < |warehouses| && (t < 0 || j < t)
        ensures warehouses[j].name != loc
      {
        assert warehouses[j] == warehouses[1..][j - 1];
      }
    }
  }

  /** The lookup agrees with `findIndex` by name. */
  lemma MatchIndexIsFindIndex(warehouses: seq<Warehouse>, loc: string)
    ensures MatchIndex(warehouses, loc) == FindIndex(warehouses, Named(loc))
  {
    MatchIndexIsFirstMatch(warehouses, loc);
  }

  /** The items that get a node are `items.filter` by "its location names a warehouse". */
  lemma {:induction false} PlacedIsFilter(items: seq<Item>, warehouses: seq<Warehouse>)
    ensures Placed(items, warehouses) == Filter(items, IsPlaced(warehouses))
  {
    if |items| > 0 {
      PlacedIsFilter(items[..|items| - 1], warehouses);
    }
  }

  lemma IdsAppend(a: seq<Item>, b: seq<Item>)
    ensures Ids(a + b) == Ids(a) + Ids(b)
  {
  }

  /** A warehouse node's connections are the ids of the items stored there, in item order. */
  lemma {:induction false} WarehouseConnectionsAreFilter(items: seq<Item>, warehouses: seq<Warehouse>, t: int)
    ensures WarehouseConnections(items, warehouses, t) == Ids(Filter(items, AtWarehouse(warehouses, t)))
  {
    if |items| > 0 {
      var prefix, last := items[..|items| - 1], items[|items| - 1];
      WarehouseConnectionsAreFilter(prefix, warehouses, t);
      IdsAppend(Filter(prefix, AtWarehouse(warehouses, t)), if AtWarehouse(warehouses, t)(last) then [last] else []);
    }
  }

  /** A category node's connections are the ids of the placed items of that category, in item order. */
  lemma {:induction false} CategoryConnectionsAreFilter(items: seq<Item>, warehouses: seq<Warehouse>, c: string)
    ensures CategoryConnections(items, warehouses, c) == Ids(Filter(items, PlacedIn(warehouses, c)))
  {
    if |items| > 0 {
      var prefix, last := items[..|items| - 1], items[|items| - 1];
      CategoryConnectionsAreFilter(prefix, warehouses, c);
      IdsAppend(Filter(prefix, PlacedIn(warehouses, c)), if PlacedIn(warehouses, c)(last) then [last] else []);
    }
  }

  /** A category's size, which sets its radius, counts every item of it, placed or not. */
  lemma {:induction false} CategorySizeIsCount(items: seq<Item>, c: string)
    ensures CategorySize(items, c) == Count(items, InCategory(c))
  {
    if |items| > 0 {
      CategorySizeIsCount(items[..|items| - 1], c);
    }
  }

  /** Every placed item names a warehouse. */
  lemma {:induction false} PlacedMatched(items: seq<Item>, warehouses: seq<Warehouse>)
    ensures forall m :: 0 <= m < |Placed(items, warehouses)| ==>
      MatchIndex(warehouses, Placed(items, warehouses)[m].location) >= 0
  {
    if |items| > 0 {
      PlacedMatched(items[..|items| - 1], warehouses);
    }
  }

  /** The edge list: for the m-th placed item, a supply edge from its warehouse and then an edge to its category. */
  lemma {:induction false} SceneEdgesShape(items: seq<Item>, warehouses: seq<Warehouse>)
    ensures |SceneEdges(items, warehouses)| == 2 * |Placed(items, warehouses)|
    ensures forall m :: 0 <= m < |Placed(items, warehouses)| ==>
      MatchIndex(warehouses, Placed(items, warehouses)[m].location) >= 0
    ensures forall m :: 0 <= m < |Placed(items, warehouses)| ==>
      var p := Placed(items, warehouses)[m];
      var t := MatchIndex(warehouses, p.location);
      && SceneEdges(items, warehouses)[2 * m] == Edge(warehouses[t].id, p.id, p.quantity, SupplyEdgeColor)
      && SceneEdges(items, warehouses)[2 * m + 1] == Edge(p.id, CategoryKey(CategoryLabel(p)), 1, CategoryEdgeColor)
  {
    PlacedMatched(items, warehouses);
    if |items| > 0 {
      var prefix, last := items[..|items| - 1], items[|items| - 1];
      SceneEdgesShape(prefix, warehouses);
      var e, placed := SceneEdges(prefix, warehouses), Placed(prefix, warehouses);
      var t := MatchIndex(warehouses, last.location);
      if t >= 0 {
        var all := Placed(items, warehouses);
        assert all == placed + [last];
        forall m | 0 <= m < |all|
          ensures var p := all[m];
            var t := MatchIndex(warehouses, p.location);
            && SceneEdges(items, warehouses)[2 * m] == Edge(warehouses[t].id, p.id, p.quantity, SupplyEdgeColor)
            && SceneEdges(items, warehouses)[2 * m + 1] == Edge(p.id, CategoryKey(CategoryLabel(p)), 1, CategoryEdgeColor)
        {
          if m < |placed| {
            assert all[m] == placed[m];
          }
        }
      } else {
        assert SceneEdges(items, warehouses) == e + [];
        assert Placed(items, warehouses) == placed + [];
      }
    }
  }

  /** Consecutive categories get different colours, and the colours repeat every five categories. */
  lemma CategoryColorCycle(index: nat)
    ensures CategoryColor(index + |CategoryPalette|) == CategoryColor(index)
    ensures CategoryColor(index) != CategoryColor(index + 1)
  {
    var n := |CategoryPalette|;
    assert (index + n) % n == index % n;
    assert (index + 1) % n == if index % n == n - 1 then 0 else index % n + 1;
  }
}
