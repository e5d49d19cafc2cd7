// The scene builder of the graph view (components/graph-visualizer.tsx, the
// `useMemo` that derives `nodes` and `edges`). It fills a `Map` from node id
// to node and a list of edges with three `forEach` loops, and pushes item ids
// into the `connections` arrays of nodes already in the map. A JavaScript
// `Map` keeps its keys in insertion order, and setting a key that is already
// present replaces the value in place; the model keeps the map together with
// its key order. Positions come from trigonometry and `Math.random` in the
// source; here they are supplied by a `Layout`.
module GraphScene {
  import opened Seqs
  import opened Types

  datatype Point = Point(x: real, y: real)

  datatype NodeKind = WarehouseNode | CategoryNode | ItemNode

  /** What a node stands for: `data` is the warehouse or item, and absent for a category. */
  datatype NodeData = NoData | OfWarehouse(warehouse: Warehouse) | OfItem(item: Item)

  datatype Edge = Edge(from: string, to: string, weight: nat, color: string)

  /**
   * Where nodes go: the i-th warehouse on the outer circle, the j-th
   * category on the inner circle, and the random offset of the item the
   * k-th iteration places.
   */
  datatype Layout = Layout(warehouseAt: nat -> Point, categoryAt: nat -> Point, jitter: nat -> Point)

  const WarehouseColor: string := "#3b82f6"
  const ItemColor: string := "#6b7280"
  const CategoryPalette: seq<string> := ["#10b981", "#f59e0b", "#ef4444", "#8b5cf6", "#06b6d4"]
  const SupplyEdgeColor: string := "#e5e7eb"
  const CategoryEdgeColor: string := "#f3f4f6"

  function Min(a: real, b: real): real { if a <= b then a else b }

  /** `40 + Math.min(itemCount * 2, 20)`. */
  function WarehouseRadius(itemCount: nat): (r: real)
    ensures 40.0 <= r <= 60.0
    ensures r == 60.0 <==> itemCount >= 10
  {
    40.0 + Min(itemCount as real * 2.0, 20.0)
  }

  /** `25 + Math.min(categoryItems.length * 1.5, 15)`. */
  function CategoryRadius(members: nat): (r: real)
    ensures 25.0 <= r <= 40.0
    ensures r == 40.0 <==> members >= 10
  {
    25.0 + Min(members as real * 1.5, 15.0)
  }

  /** `8 + Math.min(item.quantity / 5, 15)`. */
  function ItemRadius(quantity: nat): (r: real)
    ensures 8.0 <= r <= 23.0
    ensures r == 23.0 <==> quantity >= 75
  {
    8.0 + Min(quantity as real / 5.0, 15.0)
  }

  /** `categoryColors[index % categoryColors.length]`. */
  function CategoryColor(index: nat): (r: string)
    ensures r in CategoryPalette
    ensures index < |CategoryPalette| ==> r == CategoryPalette[index]
  {
    CategoryPalette[index % |CategoryPalette|]
  }

  /** `categoryItems.length`: how many items carry the label `c`. */
  function CategorySize(items: seq<Item>, c: string): nat
  {
    if |items| == 0 then 0
    else CategorySize(items[..|items| - 1], c) + (if CategoryLabel(items[|items| - 1]) == c then 1 else 0)
  }

  /** The map key of a category node, `` `category-${category}` ``. */
  function CategoryKey(c: string): string
  {
    "category-" + c
  }

  // ---------------------------------------------------------------------------
  // Which items get a node, and with which warehouse

  function Named(loc: string): Warehouse -> bool
  {
    (w: Warehouse) => w.name == loc
  }

  /** The index of `warehouses.find(w => w.name === loc)`: the first warehouse of that name, or -1. */
  function MatchIndex(warehouses: seq<Warehouse>, loc: string): (r: int)
    ensures -1 <= r < |warehouses|
  {
    if |warehouses| == 0 then -1
    else if warehouses[0].name == loc then 0
    else
      var r := MatchIndex(warehouses[1..], loc);
      if r < 0 then -1 else r + 1
  }

  function IsPlaced(warehouses: seq<Warehouse>): Item -> bool
  {
    (item: Item) => MatchIndex(warehouses, item.location) >= 0
  }

  function AtWarehouse(warehouses: seq<Warehouse>, t: int): Item -> bool
  {
    (item: Item) => MatchIndex(warehouses, item.location) == t
  }

  function PlacedIn(warehouses: seq<Warehouse>, c: string): Item -> bool
  {
    (item: Item) => MatchIndex(warehouses, item.location) >= 0 && CategoryLabel(item) == c
  }

  /** The items that get a node: those whose location names a warehouse, in list order. */
  function Placed(items: seq<Item>, warehouses: seq<Warehouse>): (r: seq<Item>)
    ensures |r| <= |items|
  {
    if |items| == 0 then []
    else
      var last := items[|items| - 1];
      Placed(items[..|items| - 1], warehouses) + (if MatchIndex(warehouses, last.location) >= 0 then [last] else [])
  }

  /** The ids the item loop pushes onto the node of the `t`-th warehouse. */
  function WarehouseConnections(items: seq<Item>, warehouses: seq<Warehouse>, t: int): (r: seq<string>)
    ensures |r| <= |items|
  {
    if |items| == 0 then []
    else
      var last := items[|items| - 1];
      WarehouseConnections(items[..|items| - 1], warehouses, t) +
      (if MatchIndex(warehouses, last.location) == t then [last.id] else [])
  }

  /** The ids the item loop pushes onto the node of category `c`. */
  function CategoryConnections(items: seq<Item>, warehouses: seq<Warehouse>, c: string): (r: seq<string>)
    ensures |r| <= |items|
  {
    if |items| == 0 then []
    else
      var last := items[|items| - 1];
      CategoryConnections(items[..|items| - 1], warehouses, c) +
      (if MatchIndex(warehouses, last.location) >= 0 && CategoryLabel(last) == c then [last.id] else [])
  }

  function WarehouseIds(warehouses: seq<Warehouse>): (r: seq<string>)
    ensures |r| == |warehouses| && forall i :: 0 <= i < |warehouses| ==> r[i] == warehouses[i].id
  {
    seq(|warehouses|, i requires 0 <= i < |warehouses| => warehouses[i].id)
  }

  function CategoryKeys(cats: seq<string>): (r: seq<string>)
    ensures |r| == |cats| && forall i :: 0 <= i < |cats| ==> r[i] == CategoryKey(cats[i])
  {
    seq(|cats|, i requires 0 <= i < |cats| => CategoryKey(cats[i]))
  }

  /** Every `nodeMap.set` key, in the order the three loops issue them. */
  function NodeKeys(items: seq<Item>, warehouses: seq<Warehouse>): seq<string>
  {
    WarehouseIds(warehouses) + CategoryKeys(CategoryLabels(items)) + Ids(Placed(items, warehouses))
  }

  /** No `nodeMap.set` overwrites an earlier node. */
  ghost predicate NoKeyClash(items: seq<Item>, warehouses: seq<Warehouse>)
  {
    Distinct(NodeKeys(items, warehouses))
  }

  /** The two edges a placed item adds; none for an item that is not placed. */
  function ItemEdges(item: Item, warehouses: seq<Warehouse>): seq<Edge>
  {
    var t := MatchIndex(warehouses, item.location);
    if t < 0 then []
    else [Edge(warehouses[t].id, item.id, item.quantity, SupplyEdgeColor),
          Edge(item.id, CategoryKey(CategoryLabel(item)), 1, CategoryEdgeColor)]
  }

  /** `edgeList` after the item loop. */
  function SceneEdges(items: seq<Item>, warehouses: seq<Warehouse>): seq<Edge>
  {
    if |items| == 0 then []
    else SceneEdges(items[..|items| - 1], warehouses) + ItemEdges(items[|items| - 1], warehouses)
  }

  // ---------------------------------------------------------------------------
  // Nodes

  /**
   * A node of the scene. The source builds these as objects that only the
   * `Map` holds, so the model keeps them as values in the map and writes a
   * `connections.push` as an update of the map entry.
   */
  datatype SceneNode = SceneNode(
    id: string,
    kind: NodeKind,
    caption: string,
    pos: Point,
    radius: real,
    color: string,
    data: NodeData,
    connections: seq<string>)

  ghost predicate IsWarehouseNode(n: SceneNode, w: Warehouse, at: Point, connections: seq<string>)
  {
    && n.id == w.id && n.kind == WarehouseNode && n.caption == w.name && n.pos == at
    && n.radius == WarehouseRadius(w.itemCount) && n.color == WarehouseColor && n.data == OfWarehouse(w)
    && n.connections == connections
  }

  ghost predicate IsCategoryNode(n: SceneNode, c: string, index: nat, members: nat, at: Point, connections: seq<string>)
  {
    && n.id == CategoryKey(c) && n.kind == CategoryNode && n.caption == c && n.pos == at
    && n.radius == CategoryRadius(members) && n.color == CategoryColor(index) && n.data == NoData
    && n.connections == connections
  }

  ghost predicate IsItemNode(n: SceneNode, item: Item, warehouses: seq<Warehouse>)
  {
    var t := MatchIndex(warehouses, item.location);
    && n.id == item.id && n.kind == ItemNode && n.caption == item.name
    && n.radius == ItemRadius(item.quantity) && n.color == ItemColor && n.data == OfItem(item)
    && 0 <= t && n.connections == [warehouses[t].id, CategoryKey(CategoryLabel(item))]
  }

  /** The map holds exactly the keys `ks`, each node under its own id. */
  ghost predicate Keyed(nodeMap: map<string, SceneNode>, ks: seq<string>)
  {
    && (forall k :: k in nodeMap <==> k in ks)
    && (forall k :: k in nodeMap ==> nodeMap[k].id == k)
  }

  /** Each warehouse has its node, with no connections yet. */
  ghost predicate WarehouseNodesAt(nodeMap: map<string, SceneNode>, warehouses: seq<Warehouse>, layout: Layout)
  {
    forall t :: 0 <= t < |warehouses| ==>
      warehouses[t].id in nodeMap && IsWarehouseNode(nodeMap[warehouses[t].id], warehouses[t], layout.warehouseAt(t), [])
  }

  /** Each category has its node, with no connections yet. */
  ghost predicate CategoryNodesAt(nodeMap: map<string, SceneNode>, items: seq<Item>, categories: seq<string>, layout: Layout)
  {
    forall u :: 0 <= u < |categories| ==>
      CategoryKey(categories[u]) in nodeMap &&
      IsCategoryNode(nodeMap[CategoryKey(categories[u])], categories[u], u, CategorySize(items, categories[u]),
                     layout.categoryAt(u), [])
  }

  /** Every entry of `before` is still in `after`, unchanged. */
  ghost predicate Kept(before: map<string, SceneNode>, after: map<string, SceneNode>)
  {
    forall key :: key in before ==> key in after && after[key] == before[key]
  }

  /** Each warehouse's node, under its id, is connected to the items it holds. */
  ghost predicate WarehouseEntries(nodeMap: map<string, SceneNode>, items: seq<Item>, warehouses: seq<Warehouse>,
                                   layout: Layout)
  {
    forall t :: 0 <= t < |warehouses| ==>
      warehouses[t].id in nodeMap &&
      IsWarehouseNode(nodeMap[warehouses[t].id], warehouses[t], layout.warehouseAt(t), WarehouseConnections(items, warehouses, t))
  }

  /** Each category's node, under its key, is connected to the placed items of that category. */
  ghost predicate CategoryEntries(nodeMap: map<string, SceneNode>, items: seq<Item>, warehouses: seq<Warehouse>,
                                  categories: seq<string>, layout: Layout)
  {
    forall j :: 0 <= j < |categories| ==>
      CategoryKey(categories[j]) in nodeMap &&
      IsCategoryNode(nodeMap[CategoryKey(categories[j])], categories[j], j, CategorySize(items, categories[j]),
                     layout.categoryAt(j), CategoryConnections(items, warehouses, categories[j]))
  }

  /** The first `|warehouses|` nodes are the warehouse nodes, connected to the items each holds. */
  ghost predicate WarehouseRows(nodes: seq<SceneNode>, items: seq<Item>, warehouses: seq<Warehouse>, layout: Layout)
  {
    |warehouses| <= |nodes| &&
    forall t :: 0 <= t < |warehouses| ==>
      IsWarehouseNode(nodes[t], warehouses[t], layout.warehouseAt(t), WarehouseConnections(items, warehouses, t))
  }

  /** After them come the category nodes, connected to the placed items of each category. */
  ghost predicate CategoryRows(nodes: seq<SceneNode>, items: seq<Item>, warehouses: seq<Warehouse>,
                               categories: seq<string>, layout: Layout)
  {
    |warehouses| + |categories| <= |nodes| &&
    forall j :: 0 <= j < |categories| ==>
      IsCategoryNode(nodes[|warehouses| + j], categories[j], j, CategorySize(items, categories[j]),
                     layout.categoryAt(j), CategoryConnections(items, warehouses, categories[j]))
  }

  /** From `offset` on come the nodes of the placed items. */
  ghost predicate ItemRows(nodes: seq<SceneNode>, placed: seq<Item>, warehouses: seq<Warehouse>, offset: nat)
  {
    offset + |placed| <= |nodes| &&
    forall m :: 0 <= m < |placed| ==> IsItemNode(nodes[offset + m], placed[m], warehouses)
  }

  /**
   * The scene's node list when no key clashes: the warehouse nodes, then the
   * category nodes, then the item nodes, and nothing else.
   */
  ghost predicate LaidOut(nodes: seq<SceneNode>, items: seq<Item>, warehouses: seq<Warehouse>, layout: Layout)
  {
    var categories, placed := CategoryLabels(items), Placed(items, warehouses);
    && |nodes| == |warehouses| + |categories| + |placed|
    && WarehouseRows(nodes, items, warehouses, layout)
    && CategoryRows(nodes, items, warehouses, categories, layout)
    && ItemRows(nodes, placed, warehouses, |warehouses| + |categories|)
  }

  // ---------------------------------------------------------------------------
  // The builder

  /**
   * Builds the scene. Whatever the ids, the edges are two per placed item and
   * the nodes are listed under the distinct keys in the order first set (a
   * JavaScript `Map` iterates in first-insertion order). When no key clashes,
   * there is one node per warehouse, per category and per placed item, in
   * that order, and each warehouse and category node is connected to the
   * placed items it holds.
   */
  method BuildScene(items: seq<Item>, warehouses: seq<Warehouse>, layout: Layout)
    returns (nodes: seq<SceneNode>, edges: seq<Edge>)
    ensures edges == SceneEdges(items, warehouses)
    ensures |nodes| == |Dedup(NodeKeys(items, warehouses))|
    ensures forall i :: 0 <= i < |nodes| ==> nodes[i].id == Dedup(NodeKeys(items, warehouses))[i]
    ensures NoKeyClash(items, warehouses) ==> LaidOut(nodes, items, warehouses, layout)
  {
    var nodeMap;
    nodeMap, edges := BuildNodeMap(items, warehouses, layout);
    ghost var keys := NodeKeys(items, warehouses);
    var order := Dedup(NodeKeys(items, warehouses));
    KeyedInOrder(nodeMap, keys);
    nodes := Listed(nodeMap, order);
    if NoKeyClash(items, warehouses) {
      DedupDistinct(keys);
      SceneLaidOut(items, warehouses, layout, nodeMap, nodes);
    }
  }

  /** `Array.from(nodeMap.values())`: the map's nodes under the keys of `order`, in that order. */
  function Listed(nodeMap: map<string, SceneNode>, order: seq<string>): (r: seq<SceneNode>)
    requires forall n :: 0 <= n < |order| ==> order[n] in nodeMap
    ensures ListedBy(r, order, nodeMap)
  {
    seq(|order|, n requires 0 <= n < |order| => nodeMap[order[n]])
  }

  /** Every key set, listed once in the order first set, has its node under its own id. */
  lemma KeyedInOrder(nodeMap: map<string, SceneNode>, keys: seq<string>)
    requires Keyed(nodeMap, keys)
    ensures forall n :: 0 <= n < |Dedup(keys)| ==> Dedup(keys)[n] in nodeMap && nodeMap[Dedup(keys)[n]].id == Dedup(keys)[n]
  {
    DedupMembers(keys);
  }

  /**
   * The three loops that fill `nodeMap` and `edgeList`. The map holds exactly
   * the scene's keys, each node under its own id; when no key clashes, each
   * warehouse and category node holds the placed items it is connected to,
   * and each placed item has its node.
   */
  method BuildNodeMap(items: seq<Item>, warehouses: seq<Warehouse>, layout: Layout)
    returns (nodeMap: map<string, SceneNode>, edges: seq<Edge>)
    ensures edges == SceneEdges(items, warehouses)
    ensures Keyed(nodeMap, NodeKeys(items, warehouses))
    ensures NoKeyClash(items, warehouses) ==> WarehouseEntries(nodeMap, items, warehouses, layout)
    ensures NoKeyClash(items, warehouses) ==> CategoryEntries(nodeMap, items, warehouses, CategoryLabels(items), layout)
    ensures NoKeyClash(items, warehouses) ==> ItemNodes(Placed(items, warehouses), warehouses, nodeMap)
  {
    var categories := CategoryLabels(items);
    ghost var wids, ckeys, pids := WarehouseIds(warehouses), CategoryKeys(categories), Ids(Placed(items, warehouses));
    assert NodeKeys(items, warehouses) == wids + ckeys + pids;
    ghost var clashFree := NoKeyClash(items, warehouses);
    if clashFree {
      DistinctPrefix(wids + ckeys, pids);
      DistinctPrefix(wids, ckeys);
    }
    var nodeMap0 := AddWarehouseNodes(warehouses, layout);
    var nodeMap1 := AddCategoryNodes(items, categories, layout, nodeMap0);
    PlaceCategoriesKeyed(nodeMap0, items, categories, layout, wids);
    if clashFree {
      PlaceCategoriesFresh(nodeMap0, items, categories, layout, wids);
    }
    LabelsListed(items, categories, nodeMap1);
    nodeMap, edges := AddItemNodes(items, warehouses, layout, nodeMap1);
    PlaceItemsKeyed(Built(nodeMap1, []), items, warehouses, layout, wids + ckeys);
    PlaceItemsEdges(Built(nodeMap1, []), items, warehouses, layout);
    if clashFree {
      PlaceItemsConnected(Built(nodeMap1, []), items, warehouses, categories, layout);
      WarehouseEntriesFilled(items, warehouses, layout, nodeMap0, nodeMap1, nodeMap);
      CategoryEntriesFilled(items, warehouses, categories, layout, nodeMap1, nodeMap);
    }
  }

  /** The warehouse loop: one node per warehouse, with no connections yet. */
  method AddWarehouseNodes(warehouses: seq<Warehouse>, layout: Layout) returns (nodeMap: map<string, SceneNode>)
    ensures Keyed(nodeMap, WarehouseIds(warehouses))
    ensures forall t :: 0 <= t < |warehouses| ==> warehouses[t].id in nodeMap
    ensures Distinct(WarehouseIds(warehouses)) ==> WarehouseNodesAt(nodeMap, warehouses, layout)
  {
    ghost var ids := WarehouseIds(warehouses);
    ghost var clashFree := Distinct(ids);
    nodeMap := map[];
    var i := 0;
    while i < |warehouses|
      invariant 0 <= i <= |warehouses|
      invariant Keyed(nodeMap, ids[..i])
      invariant forall t :: 0 <= t < i ==> warehouses[t].id in nodeMap
      invariant clashFree ==> forall t :: 0 <= t < i ==>
        IsWarehouseNode(nodeMap[warehouses[t].id], warehouses[t], layout.warehouseAt(t), [])
    {
      var w := warehouses[i];
      var node := SceneNode(w.id, WarehouseNode, w.name, layout.warehouseAt(i), WarehouseRadius(w.itemCount),
                                WarehouseColor, OfWarehouse(w), []);
      SetStep(ids, i, nodeMap, node);
      if clashFree {
        DistinctFresh(ids, i);
      }
      nodeMap := nodeMap[w.id := node];
      i := i + 1;
    }
    assert ids[..i] == ids;
  }

  /** The category loop: one node per category, in order of first appearance, with no connections yet. */
  method AddCategoryNodes(items: seq<Item>, categories: seq<string>, layout: Layout,
                          nodeMap0: map<string, SceneNode>)
    returns (nodeMap: map<string, SceneNode>)
    ensures nodeMap == PlaceCategories(nodeMap0, items, categories, layout)
  {
    nodeMap := nodeMap0;
    var j := 0;
    while j < |categories|
      invariant 0 <= j <= |categories|
      invariant nodeMap == PlaceCategories(nodeMap0, items, categories[..j], layout)
    {
      var c := categories[j];
      nodeMap := nodeMap[CategoryKey(c) := NewCategoryNode(items, c, j, layout)];
      assert categories[..j + 1][..j] == categories[..j];
      j := j + 1;
    }
    assert categories[..j] == categories;
  }

  /** The node of the `index`-th category, sized by how many items carry its label. */
  function NewCategoryNode(items: seq<Item>, c: string, index: nat, layout: Layout): (r: SceneNode)
    ensures IsCategoryNode(r, c, index, CategorySize(items, c), layout.categoryAt(index), [])
  {
    SceneNode(CategoryKey(c), CategoryNode, c, layout.categoryAt(index), CategoryRadius(CategorySize(items, c)),
              CategoryColor(index), NoData, [])
  }

  /** The map after the category loop has set `categories`, in order. */
  function PlaceCategories(nodeMap0: map<string, SceneNode>, items: seq<Item>, categories: seq<string>, layout: Layout)
    : map<string, SceneNode>
  {
    if |categories| == 0 then nodeMap0
    else
      var j := |categories| - 1;
      PlaceCategories(nodeMap0, items, categories[..j], layout)[CategoryKey(categories[j]) :=
                                                                  NewCategoryNode(items, categories[j], j, layout)]
  }

  /** The category loop sets exactly the category keys, each node under its own id, and keeps every earlier key. */
  lemma {:induction false} PlaceCategoriesKeyed(nodeMap0: map<string, SceneNode>, items: seq<Item>,
                                                categories: seq<string>, layout: Layout, done: seq<string>)
    requires Keyed(nodeMap0, done)
    ensures Keyed(PlaceCategories(nodeMap0, items, categories, layout), done + CategoryKeys(categories))
    ensures nodeMap0.Keys <= PlaceCategories(nodeMap0, items, categories, layout).Keys
  {
    if |categories| > 0 {
      var j := |categories| - 1;
      PlaceCategoriesKeyed(nodeMap0, items, categories[..j], layout, done);
      assert CategoryKeys(categories) == CategoryKeys(categories[..j]) + [CategoryKey(categories[j])];
      SetKeyed(PlaceCategories(nodeMap0, items, categories[..j], layout), done + CategoryKeys(categories[..j]),
               NewCategoryNode(items, categories[j], j, layout));
    }
  }

  /** When no key clashes, the category loop overwrites nothing and gives each category its node. */
  lemma {:induction false} PlaceCategoriesFresh(nodeMap0: map<string, SceneNode>, items: seq<Item>,
                                                categories: seq<string>, layout: Layout, done: seq<string>)
    requires Keyed(nodeMap0, done)
    requires Distinct(done + CategoryKeys(categories))
    ensures Kept(nodeMap0, PlaceCategories(nodeMap0, items, categories, layout))
    ensures CategoryNodesAt(PlaceCategories(nodeMap0, items, categories, layout), items, categories, layout)
  {
    if |categories| > 0 {
      var j := |categories| - 1;
      var prefix := categories[..j];
      var all := done + CategoryKeys(categories);
      assert CategoryKeys(categories) == CategoryKeys(prefix) + [CategoryKey(categories[j])];
      DistinctShrink(done, CategoryKeys(prefix), [CategoryKey(categories[j])]);
      PlaceCategoriesFresh(nodeMap0, items, prefix, layout, done);
      PlaceCategoriesKeyed(nodeMap0, items, prefix, layout, done);
      DistinctFresh(all, |done| + j);
      assert all[..|done| + j] == done + CategoryKeys(prefix);
      CategoryNodeAdded(nodeMap0, PlaceCategories(nodeMap0, items, prefix, layout), items, categories, layout, j,
                        NewCategoryNode(items, categories[j], j, layout));
      assert categories[..j + 1] == categories;
    }
  }

  /** One more category node, under a fresh key, keeps the earlier nodes. */
  lemma CategoryNodeAdded(nodeMap0: map<string, SceneNode>, nodeMap: map<string, SceneNode>, items: seq<Item>,
                          categories: seq<string>, layout: Layout, j: nat, node: SceneNode)
    requires j < |categories|
    requires node == NewCategoryNode(items, categories[j], j, layout)
    requires node.id !in nodeMap
    requires Kept(nodeMap0, nodeMap) && CategoryNodesAt(nodeMap, items, categories[..j], layout)
    ensures Kept(nodeMap0, nodeMap[node.id := node])
    ensures CategoryNodesAt(nodeMap[node.id := node], items, categories[..j + 1], layout)
  {
    var prefix := categories[..j + 1];
    forall u | 0 <= u < j + 1
      ensures CategoryKey(prefix[u]) in nodeMap[node.id := node]
      ensures IsCategoryNode(nodeMap[node.id := node][CategoryKey(prefix[u])], prefix[u], u,
                             CategorySize(items, prefix[u]), layout.categoryAt(u), [])
    {
      if u < j {
        assert prefix[u] == categories[..j][u];
      }
    }
  }

  /** The nodes and the edges the item loop has built so far. */
  datatype Built = Built(nodeMap: map<string, SceneNode>, edges: seq<Edge>)

  /** The node with `ids` pushed onto its connections, in order. */
  function Extended(node: SceneNode, ids: seq<string>): (r: SceneNode)
    ensures r.id == node.id && r.connections == node.connections + ids
  {
    node.(connections := node.connections + ids)
  }

  /** `node.connections.push(id)`. */
  function Connect(node: SceneNode, id: string): (r: SceneNode)
    ensures r == Extended(node, [id])
  {
    node.(connections := node.connections + [id])
  }

  /**
   * One turn of the item loop. When the item's location names a warehouse
   * and both that warehouse's and the category's nodes are in the map, the
   * item gets a node between the two (moved by the `index`-th jitter), two
   * edges, and its id pushed onto both nodes' connections. A push onto a node
   * that the same turn displaced from the map (its key is the item's id) is
   * not seen in the scene.
   */
  function PlaceItem(b: Built, item: Item, index: nat, warehouses: seq<Warehouse>, layout: Layout): Built
  {
    var t := MatchIndex(warehouses, item.location);
    var key := CategoryKey(CategoryLabel(item));
    if t < 0 || warehouses[t].id !in b.nodeMap || key !in b.nodeMap then b
    else
      var wid := warehouses[t].id;
      var itemNode := NewItemNode(item, index, b.nodeMap[wid], b.nodeMap[key], wid, key, layout);
      Built(Pushed(b.nodeMap[item.id := itemNode], wid, key, item.id), b.edges + ItemEdges(item, warehouses))
  }

  /** The item's node, halfway between its warehouse's and its category's nodes and moved by the `index`-th jitter. */
  function NewItemNode(item: Item, index: nat, warehouseNode: SceneNode, categoryNode: SceneNode, wid: string, key: string,
                       layout: Layout): SceneNode
  {
    var mid := Point((warehouseNode.pos.x + categoryNode.pos.x) / 2.0, (warehouseNode.pos.y + categoryNode.pos.y) / 2.0);
    var offset := layout.jitter(index);
    SceneNode(item.id, ItemNode, item.name, Point(mid.x + offset.x, mid.y + offset.y),
              ItemRadius(item.quantity), ItemColor, OfItem(item), [wid, key])
  }

  /**
   * `warehouseNode.connections.push(id)` and then `categoryNode.connections.push(id)`,
   * each skipped when that node has just been displaced by the item's own node.
   */
  function Pushed(nodeMap: map<string, SceneNode>, wid: string, key: string, id: string): map<string, SceneNode>
    requires wid in nodeMap && key in nodeMap
  {
    var m := if wid != id then nodeMap[wid := Connect(nodeMap[wid], id)] else nodeMap;
    if key != id then m[key := Connect(m[key], id)] else m
  }

  /** The item loop run over `items`, starting from `b`. */
  function PlaceItems(b: Built, items: seq<Item>, warehouses: seq<Warehouse>, layout: Layout): Built
  {
    if |items| == 0 then b
    else PlaceItem(PlaceItems(b, items[..|items| - 1], warehouses, layout), items[|items| - 1], |items| - 1, warehouses, layout)
  }

  /** The item loop, updating the map and the edge list in place. */
  method AddItemNodes(items: seq<Item>, warehouses: seq<Warehouse>, layout: Layout, nodeMap0: map<string, SceneNode>)
    returns (nodeMap: map<string, SceneNode>, edges: seq<Edge>)
    ensures Built(nodeMap, edges) == PlaceItems(Built(nodeMap0, []), items, warehouses, layout)
  {
    nodeMap, edges := nodeMap0, [];
    var k := 0;
    while k < |items|
      invariant 0 <= k <= |items|
      invariant Built(nodeMap, edges) == PlaceItems(Built(nodeMap0, []), items[..k], warehouses, layout)
    {
      assert items[..k + 1][..k] == items[..k];
      var item := items[k];
      var t := MatchIndex(warehouses, item.location);
      var key := CategoryKey(CategoryLabel(item));
      if t >= 0 && warehouses[t].id in nodeMap && key in nodeMap {
        var w := warehouses[t];
        var itemNode := NewItemNode(item, k, nodeMap[w.id], nodeMap[key], w.id, key, layout);
        nodeMap := nodeMap[item.id := itemNode];
        edges := edges + ItemEdges(item, warehouses);
        if w.id != item.id {
          nodeMap := nodeMap[w.id := Connect(nodeMap[w.id], item.id)];
        }
        if key != item.id {
          nodeMap := nodeMap[key := Connect(nodeMap[key], item.id)];
        }
      }
      k := k + 1;
    }
    assert items[..k] == items;
  }

  // ---------------------------------------------------------------------------
  // What the item loop builds

  /**
   * Whatever the ids: when the map starts with every warehouse's and every
   * category's node, the loop adds exactly the placed items' ids as keys, each
   * node sits under its own id, and the edges are two per placed item.
   */
  lemma {:induction false} PlaceItemsKeyed(b: Built, items: seq<Item>, warehouses: seq<Warehouse>, layout: Layout,
                                           done: seq<string>)
    requires Keyed(b.nodeMap, done)
    requires forall t :: 0 <= t < |warehouses| ==> warehouses[t].id in b.nodeMap
    requires forall i :: 0 <= i < |items| ==> CategoryKey(CategoryLabel(items[i])) in b.nodeMap
    ensures Keyed(PlaceItems(b, items, warehouses, layout).nodeMap, done + Ids(Placed(items, warehouses)))
    ensures b.nodeMap.Keys <= PlaceItems(b, items, warehouses, layout).nodeMap.Keys
  {
    if |items| == 0 {
      assert done + Ids(Placed(items, warehouses)) == done;
    } else {
      var n := |items| - 1;
      var prefix, item := items[..n], items[n];
      PlaceItemsKeyed(b, prefix, warehouses, layout, done);
      var pids := Ids(Placed(prefix, warehouses));
      KeyedStep(PlaceItems(b, prefix, warehouses, layout), item, n, warehouses, layout, done + pids);
      IdsPlacedSnoc(items, warehouses, done);
    }
  }

  lemma IdsPlacedSnoc(items: seq<Item>, warehouses: seq<Warehouse>, done: seq<string>)
    requires |items| > 0
    ensures var n := |items| - 1;
      done + Ids(Placed(items, warehouses)) ==
      done + Ids(Placed(items[..n], warehouses)) + (if MatchIndex(warehouses, items[n].location) >= 0 then [items[n].id] else [])
  {
    var n := |items| - 1;
    var pids := Ids(Placed(items[..n], warehouses));
    var x: seq<string> := if MatchIndex(warehouses, items[n].location) >= 0 then [items[n].id] else [];
    assert Ids(Placed(items, warehouses)) == pids + x;
  }

  /** Whatever the ids: the edges are two per placed item, in list order. */
  lemma {:induction false} PlaceItemsEdges(b: Built, items: seq<Item>, warehouses: seq<Warehouse>, layout: Layout)
    requires forall t :: 0 <= t < |warehouses| ==> warehouses[t].id in b.nodeMap
    requires forall i :: 0 <= i < |items| ==> CategoryKey(CategoryLabel(items[i])) in b.nodeMap
    ensures PlaceItems(b, items, warehouses, layout).edges == b.edges + SceneEdges(items, warehouses)
    ensures b.nodeMap.Keys <= PlaceItems(b, items, warehouses, layout).nodeMap.Keys
  {
    if |items| > 0 {
      var n := |items| - 1;
      var prefix, item := items[..n], items[n];
      PlaceItemsEdges(b, prefix, warehouses, layout);
      var before := PlaceItems(b, prefix, warehouses, layout);
      EdgesStep(before, item, n, warehouses, layout);
      assert b.edges + SceneEdges(items, warehouses) ==
             b.edges + SceneEdges(prefix, warehouses) + ItemEdges(item, warehouses);
    }
  }

  /** One turn of the item loop appends the item's edges and keeps every key. */
  lemma EdgesStep(b: Built, item: Item, index: nat, warehouses: seq<Warehouse>, layout: Layout)
    requires var t := MatchIndex(warehouses, item.location); t >= 0 ==> warehouses[t].id in b.nodeMap
    requires CategoryKey(CategoryLabel(item)) in b.nodeMap
    ensures PlaceItem(b, item, index, warehouses, layout).edges == b.edges + ItemEdges(item, warehouses)
    ensures b.nodeMap.Keys <= PlaceItem(b, item, index, warehouses, layout).nodeMap.Keys
  {
    if MatchIndex(warehouses, item.location) < 0 {
      assert b.edges + [] == b.edges;
    }
  }

  /** One turn of the item loop adds the item's id as a key exactly when the item is placed. */
  lemma KeyedStep(b: Built, item: Item, index: nat, warehouses: seq<Warehouse>, layout: Layout, ks: seq<string>)
    requires Keyed(b.nodeMap, ks)
    requires var t := MatchIndex(warehouses, item.location); t >= 0 ==> warehouses[t].id in b.nodeMap
    requires CategoryKey(CategoryLabel(item)) in b.nodeMap
    ensures var t := MatchIndex(warehouses, item.location);
      Keyed(PlaceItem(b, item, index, warehouses, layout).nodeMap, ks + (if t >= 0 then [item.id] else []))
    ensures b.nodeMap.Keys <= PlaceItem(b, item, index, warehouses, layout).nodeMap.Keys
  {
    var t := MatchIndex(warehouses, item.location);
    if t < 0 {
      assert PlaceItem(b, item, index, warehouses, layout) == b;
      assert ks + [] == ks;
    } else {
      var wid, key := warehouses[t].id, CategoryKey(CategoryLabel(item));
      var itemNode := NewItemNode(item, index, b.nodeMap[wid], b.nodeMap[key], wid, key, layout);
      var m1 := b.nodeMap[item.id := itemNode];
      assert PlaceItem(b, item, index, warehouses, layout).nodeMap == Pushed(m1, wid, key, item.id);
      SetKeyed(b.nodeMap, ks, itemNode);
      PushedKeyed(m1, ks + [item.id], wid, key, item.id);
    }
  }

  /** The pushes keep every key and every node's id. */
  lemma PushedKeyed(nodeMap: map<string, SceneNode>, ks: seq<string>, wid: string, key: string, id: string)
    requires wid in nodeMap && key in nodeMap && Keyed(nodeMap, ks)
    ensures Keyed(Pushed(nodeMap, wid, key, id), ks)
    ensures Pushed(nodeMap, wid, key, id).Keys == nodeMap.Keys
  {
  }

  /** The connections each warehouse node holds: the ids of the items stored there, in order. */
  ghost predicate WarehousesConnected(items: seq<Item>, warehouses: seq<Warehouse>,
                                      nodeMap0: map<string, SceneNode>, nodeMap: map<string, SceneNode>)
  {
    forall t :: 0 <= t < |warehouses| ==>
      (warehouses[t].id in nodeMap0 && warehouses[t].id in nodeMap &&
       nodeMap[warehouses[t].id] == Extended(nodeMap0[warehouses[t].id], WarehouseConnections(items, warehouses, t)))
  }

  /** The connections each category node holds: the ids of the placed items in that category, in order. */
  ghost predicate CategoriesConnected(items: seq<Item>, warehouses: seq<Warehouse>, categories: seq<string>,
                                      nodeMap0: map<string, SceneNode>, nodeMap: map<string, SceneNode>)
  {
    forall u :: 0 <= u < |categories| ==>
      (CategoryKey(categories[u]) in nodeMap0 && CategoryKey(categories[u]) in nodeMap &&
       nodeMap[CategoryKey(categories[u])] ==
       Extended(nodeMap0[CategoryKey(categories[u])], CategoryConnections(items, warehouses, categories[u])))
  }

  /** Each of `placed` has its node in the map. */
  ghost predicate ItemNodes(placed: seq<Item>, warehouses: seq<Warehouse>, nodeMap: map<string, SceneNode>)
  {
    forall m :: 0 <= m < |placed| ==> placed[m].id in nodeMap && IsItemNode(nodeMap[placed[m].id], placed[m], warehouses)
  }

  /**
   * When no key clashes: every warehouse and category node keeps its place and
   * gains exactly the ids of its items, in order, and every placed item has
   * its node.
   */
  lemma {:induction false} PlaceItemsConnected(b: Built, items: seq<Item>, warehouses: seq<Warehouse>,
                                               categories: seq<string>, layout: Layout)
    requires forall t :: 0 <= t < |warehouses| ==> warehouses[t].id in b.nodeMap
    requires forall u :: 0 <= u < |categories| ==> CategoryKey(categories[u]) in b.nodeMap
    requires forall i :: 0 <= i < |items| ==> CategoryLabel(items[i]) in categories
    requires Distinct(WarehouseIds(warehouses) + CategoryKeys(categories) + Ids(Placed(items, warehouses)))
    ensures WarehousesConnected(items, warehouses, b.nodeMap, PlaceItems(b, items, warehouses, layout).nodeMap)
    ensures CategoriesConnected(items, warehouses, categories, b.nodeMap, PlaceItems(b, items, warehouses, layout).nodeMap)
    ensures ItemNodes(Placed(items, warehouses), warehouses, PlaceItems(b, items, warehouses, layout).nodeMap)
  {
    var wids, ckeys := WarehouseIds(warehouses), CategoryKeys(categories);
    if |items| == 0 {
      ConnectedStart(warehouses, categories, b.nodeMap);
    } else {
      var n := |items| - 1;
      var prefix, item := items[..n], items[n];
      assert items == prefix + [item];
      PlacedDistinctPrefix(prefix, item, warehouses, wids + ckeys);
      PlaceItemsConnected(b, prefix, warehouses, categories, layout);
      ConnectedStep(b.nodeMap, PlaceItems(b, prefix, warehouses, layout), prefix, item, n, warehouses, categories, layout);
    }
  }

  /** The ids of the items placed before the last one are a prefix of all placed items' ids. */
  lemma PlacedDistinctPrefix(prefix: seq<Item>, item: Item, warehouses: seq<Warehouse>, a: seq<string>)
    requires Distinct(a + Ids(Placed(prefix + [item], warehouses)))
    ensures Distinct(a + Ids(Placed(prefix, warehouses)))
  {
    assert (prefix + [item])[..|prefix|] == prefix;
    var t := MatchIndex(warehouses, item.location);
    var pids := Ids(Placed(prefix, warehouses));
    assert Ids(Placed(prefix + [item], warehouses)) == pids + (if t >= 0 then [item.id] else []);
    DistinctShrink(a, pids, if t >= 0 then [item.id] else []);
  }

  /** One turn of the item loop keeps the connections and item nodes right, when no key clashes. */
  lemma ConnectedStep(nodeMap0: map<string, SceneNode>, b: Built, prefix: seq<Item>, item: Item, index: nat,
                      warehouses: seq<Warehouse>, categories: seq<string>, layout: Layout)
    requires CategoryLabel(item) in categories
    requires Distinct(WarehouseIds(warehouses) + CategoryKeys(categories) + Ids(Placed(prefix + [item], warehouses)))
    requires WarehousesConnected(prefix, warehouses, nodeMap0, b.nodeMap)
    requires CategoriesConnected(prefix, warehouses, categories, nodeMap0, b.nodeMap)
    requires ItemNodes(Placed(prefix, warehouses), warehouses, b.nodeMap)
    ensures var after := PlaceItem(b, item, index, warehouses, layout).nodeMap;
      && WarehousesConnected(prefix + [item], warehouses, nodeMap0, after)
      && CategoriesConnected(prefix + [item], warehouses, categories, nodeMap0, after)
      && ItemNodes(Placed(prefix + [item], warehouses), warehouses, after)
  {
    var t := MatchIndex(warehouses, item.location);
    if t < 0 {
      SkipStep(prefix, item, warehouses, categories, nodeMap0, b.nodeMap);
      assert (prefix + [item])[..|prefix|] == prefix;
    } else {
      var u :| 0 <= u < |categories| && categories[u] == CategoryLabel(item);
      ItemStep(prefix, item, index, warehouses, categories, t, u, layout, nodeMap0, b);
    }
  }

  // ---------------------------------------------------------------------------
  // Steps of the builder's proof

  /** With no repeated key, the nodes the loops create have pairwise different ids. */
  lemma KeysApart(wids: seq<string>, ckeys: seq<string>, pids: seq<string>)
    requires Distinct(wids + ckeys + pids)
    ensures Distinct(wids) && Distinct(ckeys) && Distinct(pids)
    ensures forall t, u :: 0 <= t < |wids| && 0 <= u < |ckeys| ==> wids[t] != ckeys[u]
    ensures forall t, m :: 0 <= t < |wids| && 0 <= m < |pids| ==> wids[t] != pids[m]
    ensures forall u, m :: 0 <= u < |ckeys| && 0 <= m < |pids| ==> ckeys[u] != pids[m]
  {
    var a := wids + ckeys + pids;
    var nw, nc := |wids|, |ckeys|;
    forall i, j | 0 <= i < j < nw ensures wids[i] != wids[j] {
      assert a[i] != a[j];
    }
    forall i, j | 0 <= i < j < nc ensures ckeys[i] != ckeys[j] {
      assert a[nw + i] != a[nw + j];
    }
    forall i, j | 0 <= i < j < |pids| ensures pids[i] != pids[j] {
      assert a[nw + nc + i] != a[nw + nc + j];
    }
    forall t, u | 0 <= t < nw && 0 <= u < nc ensures wids[t] != ckeys[u] {
      assert a[t] != a[nw + u];
    }
    forall t, m | 0 <= t < nw && 0 <= m < |pids| ensures wids[t] != pids[m] {
      assert a[t] != a[nw + nc + m];
    }
    forall u, m | 0 <= u < nc && 0 <= m < |pids| ensures ckeys[u] != pids[m] {
      assert a[nw + u] != a[nw + nc + m];
    }
  }

  /** `nodeMap.set(id, node)` for the n-th key: the map then holds the first n + 1 keys. */
  lemma SetStep(allKeys: seq<string>, n: nat, nodeMap: map<string, SceneNode>, node: SceneNode)
    requires n < |allKeys| && allKeys[n] == node.id
    requires Keyed(nodeMap, allKeys[..n])
    ensures Keyed(nodeMap[node.id := node], allKeys[..n + 1])
  {
    assert allKeys[..n + 1] == allKeys[..n] + [node.id];
  }

  lemma SetKeyed(nodeMap: map<string, SceneNode>, ks: seq<string>, node: SceneNode)
    requires Keyed(nodeMap, ks)
    ensures Keyed(nodeMap[node.id := node], ks + [node.id])
  {
  }

  /** In a list without repeats, no key was set before its own turn. */
  lemma DistinctFresh(a: seq<string>, n: nat)
    requires Distinct(a) && n < |a|
    ensures a[n] !in a[..n]
  {
    forall i | 0 <= i < n
      ensures a[..n][i] != a[n]
    {
      assert a[..n][i] == a[i];
    }
  }

  /** Before the item loop, every warehouse and category node holds the connections it started with. */
  lemma ConnectedStart(warehouses: seq<Warehouse>, categories: seq<string>, nodeMap0: map<string, SceneNode>)
    requires forall t :: 0 <= t < |warehouses| ==> warehouses[t].id in nodeMap0
    requires forall u :: 0 <= u < |categories| ==> CategoryKey(categories[u]) in nodeMap0
    ensures WarehousesConnected([], warehouses, nodeMap0, nodeMap0)
    ensures CategoriesConnected([], warehouses, categories, nodeMap0, nodeMap0)
  {
    forall t | 0 <= t < |warehouses|
      ensures warehouses[t].id in nodeMap0 && nodeMap0[warehouses[t].id] == Extended(nodeMap0[warehouses[t].id], [])
    {
      assert nodeMap0[warehouses[t].id].connections + [] == nodeMap0[warehouses[t].id].connections;
    }
    forall u | 0 <= u < |categories|
      ensures CategoryKey(categories[u]) in nodeMap0 &&
              nodeMap0[CategoryKey(categories[u])] == Extended(nodeMap0[CategoryKey(categories[u])], [])
    {
      assert nodeMap0[CategoryKey(categories[u])].connections + [] == nodeMap0[CategoryKey(categories[u])].connections;
    }
  }

  /** An item that names no warehouse changes no connection. */
  lemma SkipStep(prefix: seq<Item>, item: Item, warehouses: seq<Warehouse>, categories: seq<string>,
                 nodeMap0: map<string, SceneNode>, nodeMap: map<string, SceneNode>)
    requires MatchIndex(warehouses, item.location) < 0
    requires WarehousesConnected(prefix, warehouses, nodeMap0, nodeMap)
    requires CategoriesConnected(prefix, warehouses, categories, nodeMap0, nodeMap)
    ensures WarehousesConnected(prefix + [item], warehouses, nodeMap0, nodeMap)
    ensures CategoriesConnected(prefix + [item], warehouses, categories, nodeMap0, nodeMap)
  {
    assert (prefix + [item])[..|prefix|] == prefix;
    forall t | 0 <= t < |warehouses|
      ensures WarehouseConnections(prefix + [item], warehouses, t) == WarehouseConnections(prefix, warehouses, t)
    {
      assert WarehouseConnections(prefix, warehouses, t) + [] == WarehouseConnections(prefix, warehouses, t);
    }
    forall u | 0 <= u < |categories|
      ensures CategoryConnections(prefix + [item], warehouses, categories[u]) ==
              CategoryConnections(prefix, warehouses, categories[u])
    {
      assert CategoryConnections(prefix, warehouses, categories[u]) + [] ==
             CategoryConnections(prefix, warehouses, categories[u]);
    }
  }

  /** The same map after `nodeMap.set(id, itemNode)` and pushes of `id` under `wid` and then under `key`. */
  ghost predicate Placing(before: map<string, SceneNode>, id: string, itemNode: SceneNode, wid: string, key: string,
                          after: map<string, SceneNode>)
  {
    var m1 := before[id := itemNode];
    wid in m1 &&
    var m2 := m1[wid := Connect(m1[wid], id)];
    key in m2 && after == m2[key := Connect(m2[key], id)]
  }

  /**
   * One placed item, when no key clashes: its node goes in under a fresh key,
   * and its id is pushed onto exactly its warehouse's and its category's node.
   */
  lemma ItemStep(prefix: seq<Item>, item: Item, index: nat, warehouses: seq<Warehouse>, categories: seq<string>,
                 t: nat, u: nat, layout: Layout, nodeMap0: map<string, SceneNode>, b: Built)
    requires t < |warehouses| && t == MatchIndex(warehouses, item.location)
    requires u < |categories| && categories[u] == CategoryLabel(item)
    requires Distinct(WarehouseIds(warehouses) + CategoryKeys(categories) + Ids(Placed(prefix + [item], warehouses)))
    requires WarehousesConnected(prefix, warehouses, nodeMap0, b.nodeMap)
    requires CategoriesConnected(prefix, warehouses, categories, nodeMap0, b.nodeMap)
    requires ItemNodes(Placed(prefix, warehouses), warehouses, b.nodeMap)
    ensures var after := PlaceItem(b, item, index, warehouses, layout).nodeMap;
      && WarehousesConnected(prefix + [item], warehouses, nodeMap0, after)
      && CategoriesConnected(prefix + [item], warehouses, categories, nodeMap0, after)
      && ItemNodes(Placed(prefix + [item], warehouses), warehouses, after)
  {
    var before, after := b.nodeMap, PlaceItem(b, item, index, warehouses, layout).nodeMap;
    var placed := Placed(prefix, warehouses);
    var wids, ckeys, pids := WarehouseIds(warehouses), CategoryKeys(categories), Ids(placed);
    var id, wid, key := item.id, warehouses[t].id, CategoryKey(categories[u]);
    assert (prefix + [item])[..|prefix|] == prefix;
    assert Placed(prefix + [item], warehouses) == placed + [item];
    assert Ids(placed + [item]) == pids + [id];
    KeysApart(wids, ckeys, pids + [id]);
    assert wid == wids[t] && key == ckeys[u] && (pids + [id])[|pids|] == id;
    assert wid != id && key != id && wid != key;
    assert wid in before && key in before;
    var itemNode := after[id];
    assert Placing(before, id, itemNode, wid, key, after);
    assert IsItemNode(itemNode, item, warehouses);
    WarehousesStep(prefix, item, warehouses, t, key, nodeMap0, before, itemNode, after);
    CategoriesStep(prefix, item, warehouses, categories, u, wid, nodeMap0, before, itemNode, after);
    ItemNodesStep(placed, item, warehouses, wid, key, before, itemNode, after);
  }

  lemma WarehousesStep(prefix: seq<Item>, item: Item, warehouses: seq<Warehouse>, t: nat, key: string,
                       nodeMap0: map<string, SceneNode>, before: map<string, SceneNode>, itemNode: SceneNode,
                       after: map<string, SceneNode>)
    requires t < |warehouses| && t == MatchIndex(warehouses, item.location) && Distinct(WarehouseIds(warehouses))
    requires item.id !in WarehouseIds(warehouses) && key !in WarehouseIds(warehouses)
    requires WarehousesConnected(prefix, warehouses, nodeMap0, before)
    requires Placing(before, item.id, itemNode, warehouses[t].id, key, after)
    ensures WarehousesConnected(prefix + [item], warehouses, nodeMap0, after)
  {
    var wids := WarehouseIds(warehouses);
    var id, wid := item.id, warehouses[t].id;
    var m1 := before[id := itemNode];
    var m2 := m1[wid := Connect(m1[wid], id)];
    assert after == m2[key := Connect(m2[key], id)];
    forall s | 0 <= s < |warehouses|
      ensures warehouses[s].id in after &&
              after[warehouses[s].id] == Extended(nodeMap0[warehouses[s].id], WarehouseConnections(prefix + [item], warehouses, s))
    {
      WarehouseConnectionsSnoc(prefix, item, warehouses, s);
      var ws := warehouses[s].id;
      assert wids[s] == ws && wids[t] == wid;
      if s == t {
        assert after[ws] == Connect(before[ws], id);
      } else {
        assert ws != wid;
        assert after[ws] == before[ws];
      }
    }
  }

  lemma WarehouseConnectionsSnoc(prefix: seq<Item>, item: Item, warehouses: seq<Warehouse>, s: int)
    ensures WarehouseConnections(prefix + [item], warehouses, s) ==
      WarehouseConnections(prefix, warehouses, s) + (if MatchIndex(warehouses, item.location) == s then [item.id] else [])
  {
    assert (prefix + [item])[..|prefix|] == prefix;
  }

  lemma CategoriesStep(prefix: seq<Item>, item: Item, warehouses: seq<Warehouse>, categories: seq<string>,
                       u: nat, wid: string,
                       nodeMap0: map<string, SceneNode>, before: map<string, SceneNode>, itemNode: SceneNode,
                       after: map<string, SceneNode>)
    requires u < |categories| && categories[u] == CategoryLabel(item) && Distinct(CategoryKeys(categories))
    requires MatchIndex(warehouses, item.location) >= 0
    requires item.id !in CategoryKeys(categories) && wid !in CategoryKeys(categories)
    requires CategoriesConnected(prefix, warehouses, categories, nodeMap0, before)
    requires Placing(before, item.id, itemNode, wid, CategoryKey(categories[u]), after)
    ensures CategoriesConnected(prefix + [item], warehouses, categories, nodeMap0, after)
  {
    var ckeys := CategoryKeys(categories);
    assert (prefix + [item])[..|prefix|] == prefix;
    forall v | 0 <= v < |categories|
      ensures CategoryKey(categories[v]) in after &&
              after[CategoryKey(categories[v])] ==
              Extended(nodeMap0[CategoryKey(categories[v])], CategoryConnections(prefix + [item], warehouses, categories[v]))
    {
      assert ckeys[v] == CategoryKey(categories[v]);
      if v == u {
        assert after[ckeys[u]] == Connect(before[ckeys[u]], item.id);
      } else {
        assert ckeys[v] != ckeys[u];
        assert categories[v] != categories[u];
        assert after[ckeys[v]] == before[ckeys[v]];
      }
    }
  }

  lemma ItemNodesStep(placed: seq<Item>, item: Item, warehouses: seq<Warehouse>, wid: string, key: string,
                      before: map<string, SceneNode>, itemNode: SceneNode, after: map<string, SceneNode>)
    requires Distinct(Ids(placed + [item]))
    requires wid !in Ids(placed + [item]) && key !in Ids(placed + [item])
    requires ItemNodes(placed, warehouses, before)
    requires IsItemNode(itemNode, item, warehouses)
    requires Placing(before, item.id, itemNode, wid, key, after)
    ensures ItemNodes(placed + [item], warehouses, after)
  {
    var all := placed + [item];
    var pids := Ids(all);
    forall m | 0 <= m < |all|
      ensures all[m].id in after && IsItemNode(after[all[m].id], all[m], warehouses)
    {
      assert pids[m] == all[m].id;
      if m < |placed| {
        assert pids[m] != pids[|placed|];
        assert after[pids[m]] == before[pids[m]];
      } else {
        assert after[pids[m]] == itemNode;
      }
    }
  }

  // ---------------------------------------------------------------------------
  // Reading the scene off the map

  /** Every item's category is among the labels, so its category node is in the map. */
  lemma LabelsListed(items: seq<Item>, categories: seq<string>, nodeMap: map<string, SceneNode>)
    requires categories == CategoryLabels(items)
    requires forall u :: 0 <= u < |categories| ==> CategoryKey(categories[u]) in nodeMap
    ensures forall i :: 0 <= i < |items| ==> CategoryLabel(items[i]) in categories
    ensures forall i :: 0 <= i < |items| ==> CategoryKey(CategoryLabel(items[i])) in nodeMap
  {
    CategoryLabelsSpec(items);
    forall i | 0 <= i < |items|
      ensures CategoryLabel(items[i]) in categories && CategoryKey(CategoryLabel(items[i])) in nodeMap
    {
      var c := CategoryLabel(items[i]);
      assert c in categories;
      var u :| 0 <= u < |categories| && categories[u] == c;
    }
  }

  lemma ExtendedWarehouseNode(n: SceneNode, w: Warehouse, at: Point, connections: seq<string>)
    requires IsWarehouseNode(n, w, at, [])
    ensures IsWarehouseNode(Extended(n, connections), w, at, connections)
  {
    assert [] + connections == connections;
  }

  lemma ExtendedCategoryNode(n: SceneNode, c: string, index: nat, members: nat, at: Point, connections: seq<string>)
    requires IsCategoryNode(n, c, index, members, at, [])
    ensures IsCategoryNode(Extended(n, connections), c, index, members, at, connections)
  {
    assert [] + connections == connections;
  }

  /** The scene's nodes, when no key clashes, are the map's values under the keys in the order set. */
  ghost predicate ListedBy(nodes: seq<SceneNode>, keys: seq<string>, nodeMap: map<string, SceneNode>)
  {
    |nodes| == |keys| && forall i :: 0 <= i < |keys| ==> keys[i] in nodeMap && nodes[i] == nodeMap[keys[i]]
  }

  /** Where each kind of key sits in the list of keys. */
  lemma NodeKeysAt(items: seq<Item>, warehouses: seq<Warehouse>)
    ensures var keys, categories, placed := NodeKeys(items, warehouses), CategoryLabels(items), Placed(items, warehouses);
      && |keys| == |warehouses| + |categories| + |placed|
      && keys[..|warehouses|] == WarehouseIds(warehouses)
      && keys[|warehouses|..|warehouses| + |categories|] == CategoryKeys(categories)
      && keys[|warehouses| + |categories|..] == Ids(placed)
  {
    var categories, placed := CategoryLabels(items), Placed(items, warehouses);
    var wids, ckeys, pids := WarehouseIds(warehouses), CategoryKeys(categories), Ids(placed);
    var keys := NodeKeys(items, warehouses);
    assert keys == wids + ckeys + pids;
    assert keys[..|wids|] == wids;
    assert keys[|wids|..|wids| + |ckeys|] == ckeys;
    assert keys[|wids| + |ckeys|..] == pids;
  }

  /** When no key clashes, listing the filled map under the keys in order lays the scene out. */
  lemma SceneLaidOut(items: seq<Item>, warehouses: seq<Warehouse>, layout: Layout,
                     nodeMap: map<string, SceneNode>, nodes: seq<SceneNode>)
    requires ListedBy(nodes, NodeKeys(items, warehouses), nodeMap)
    requires WarehouseEntries(nodeMap, items, warehouses, layout)
    requires CategoryEntries(nodeMap, items, warehouses, CategoryLabels(items), layout)
    requires ItemNodes(Placed(items, warehouses), warehouses, nodeMap)
    ensures LaidOut(nodes, items, warehouses, layout)
  {
    var keys, categories := NodeKeys(items, warehouses), CategoryLabels(items);
    NodeKeysAt(items, warehouses);
    SceneWarehouses(items, warehouses, layout, keys, nodeMap, nodes);
    SceneCategories(items, warehouses, categories, layout, keys, nodeMap, nodes);
    SceneItems(warehouses, Placed(items, warehouses), |warehouses| + |categories|, keys, nodeMap, nodes);
  }

  lemma WarehouseEntriesFilled(items: seq<Item>, warehouses: seq<Warehouse>, layout: Layout,
                               nodeMap0: map<string, SceneNode>, nodeMap1: map<string, SceneNode>,
                               nodeMap: map<string, SceneNode>)
    requires WarehouseNodesAt(nodeMap0, warehouses, layout)
    requires Kept(nodeMap0, nodeMap1)
    requires WarehousesConnected(items, warehouses, nodeMap1, nodeMap)
    ensures WarehouseEntries(nodeMap, items, warehouses, layout)
  {
    forall t | 0 <= t < |warehouses|
      ensures IsWarehouseNode(nodeMap[warehouses[t].id], warehouses[t], layout.warehouseAt(t),
                              WarehouseConnections(items, warehouses, t))
    {
      var key := warehouses[t].id;
      ExtendedWarehouseNode(nodeMap0[key], warehouses[t], layout.warehouseAt(t), WarehouseConnections(items, warehouses, t));
    }
  }

  lemma CategoryEntriesFilled(items: seq<Item>, warehouses: seq<Warehouse>, categories: seq<string>, layout: Layout,
                              nodeMap1: map<string, SceneNode>, nodeMap: map<string, SceneNode>)
    requires CategoryNodesAt(nodeMap1, items, categories, layout)
    requires CategoriesConnected(items, warehouses, categories, nodeMap1, nodeMap)
    ensures CategoryEntries(nodeMap, items, warehouses, categories, layout)
  {
    forall j | 0 <= j < |categories|
      ensures IsCategoryNode(nodeMap[CategoryKey(categories[j])], categories[j], j, CategorySize(items, categories[j]),
                             layout.categoryAt(j), CategoryConnections(items, warehouses, categories[j]))
    {
      var c := categories[j];
      ExtendedCategoryNode(nodeMap1[CategoryKey(c)], c, j, CategorySize(items, c), layout.categoryAt(j),
                           CategoryConnections(items, warehouses, c));
    }
  }

  lemma SceneWarehouses(items: seq<Item>, warehouses: seq<Warehouse>, layout: Layout, keys: seq<string>,
                        nodeMap: map<string, SceneNode>, nodes: seq<SceneNode>)
    requires ListedBy(nodes, keys, nodeMap)
    requires |warehouses| <= |keys| && keys[..|warehouses|] == WarehouseIds(warehouses)
    requires WarehouseEntries(nodeMap, items, warehouses, layout)
    ensures WarehouseRows(nodes, items, warehouses, layout)
  {
    forall t | 0 <= t < |warehouses|
      ensures IsWarehouseNode(nodes[t], warehouses[t], layout.warehouseAt(t), WarehouseConnections(items, warehouses, t))
    {
      assert keys[t] == keys[..|warehouses|][t] == warehouses[t].id;
    }
  }

  lemma SceneCategories(items: seq<Item>, warehouses: seq<Warehouse>, categories: seq<string>, layout: Layout,
                        keys: seq<string>, nodeMap: map<string, SceneNode>, nodes: seq<SceneNode>)
    requires ListedBy(nodes, keys, nodeMap)
    requires |warehouses| + |categories| <= |keys|
    requires keys[|warehouses|..|warehouses| + |categories|] == CategoryKeys(categories)
    requires CategoryEntries(nodeMap, items, warehouses, categories, layout)
    ensures CategoryRows(nodes, items, warehouses, categories, layout)
  {
    forall j | 0 <= j < |categories|
      ensures IsCategoryNode(nodes[|warehouses| + j], categories[j], j, CategorySize(items, categories[j]),
                             layout.categoryAt(j), CategoryConnections(items, warehouses, categories[j]))
    {
      assert keys[|warehouses| + j] == keys[|warehouses|..|warehouses| + |categories|][j] == CategoryKey(categories[j]);
    }
  }

  lemma SceneItems(warehouses: seq<Warehouse>, placed: seq<Item>, offset: nat, keys: seq<string>,
                   nodeMap: map<string, SceneNode>, nodes: seq<SceneNode>)
    requires ListedBy(nodes, keys, nodeMap)
    requires offset <= |keys| && keys[offset..] == Ids(placed)
    requires ItemNodes(placed, warehouses, nodeMap)
    ensures ItemRows(nodes, placed, warehouses, offset)
  {
    forall m | 0 <= m < |placed|
      ensures IsItemNode(nodes[offset + m], placed[m], warehouses)
    {
      assert keys[offset + m] == keys[offset..][m] == placed[m].id;
    }
  }
}
