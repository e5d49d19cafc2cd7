# Inventory scanner: a Dafny model

This project models the logic of a small single-page inventory application.
The application keeps a list of inventory items and a list of warehouses. An
item has an id, name, SKU, quantity, location (a warehouse name), an optional
category and a last-updated stamp. The user filters the items by warehouse,
adds, edits, deletes and transfers items (one at a time or in batches), adds
warehouses, looks at a dashboard of charts and a graph of warehouses,
categories and items, scans barcodes, and exports the items as CSV or as a
tab-separated sheet.

The model follows the program file by file:

| module | file | what it models |
|---|---|---|
| `Seqs`, `Text` | `seqs.dfy`, `text.dfy` | the list and string operations the program takes from JavaScript (`filter`, `find`, `reduce`, `trim`, `toLowerCase`, `parseInt`, `join`, `split`, string `<`) |
| `Types` | `lib_types.dfy` | the two records and the derived notions every view shares (category label, items at a location, the warehouse selection) |
| `Page` | `page.dfy` | the page state and its handlers, as a class `InventoryStore` whose methods update `items` and `warehouses` in place and re-run the item-count effect |
| `InventoryTable` | `inventory_table.dfy` | the sort column and direction (class `SortState`) and the comparator handed to `sort` |
| `EditItem`, `BatchEdit`, `Transfer`, `BatchTransfer`, `AddWarehouse`, `BarcodeResult` | one file each | the dialogs: their form state as classes, and what submitting hands back |
| `QuickStats`, `CategoryDistribution`, `WarehouseOverview`, `Dashboard` | one file each | the dashboard's figures |
| `Sidebar` | `sidebar.dfy` | the warehouse list's counts and bars, and the mobile drawer |
| `Export` | `export.dfy` | the two export documents |
| `GraphScene`, `GraphFacts`, `GraphView` | three files | the graph: building nodes and edges with a `Map` filled by three loops, and the canvas controller (zoom, drag, click) |

Mutable component state becomes a class whose methods say what the new
state is. Computations with loops in the source become methods with loops
that are proved against a function: the category tally, the grouping by
location and the three scene-building loops. Everything else is functions
and lemmas.

## Model

| member | source | states |
|---|---|---|
| Types.CategoryLabelSpec | lib/types.ts:7 | the label of an item is never empty; it is "Uncategorized" exactly when the category is absent, empty or "Uncategorized", and otherwise it is the category |
| Types.Labels | components/graph-visualizer.tsx:86 | one label per item, in order |
| Types.CategoryLabelsSpec | components/graph-visualizer.tsx:86-89 | the distinct labels in order of first appearance: no repeats, a label is listed iff some item carries it, and first appearances keep their order |
| Types.CategoryLabelsSnoc | components/graph-visualizer.tsx:86 | appending an item adds its label at the end only when the label is new |
| Types.Ids | components/batch-transfer-modal.tsx:46 | the ids of the items, index by index |
| Types.BySelection | app/page.tsx:83-84 | with "all" selected every item is shown; otherwise exactly the items at the selected location |
| Types.BySelectionSpec | app/page.tsx:83-84 | the selection distributes over concatenation, keeps an item iff it is at the selected location (or "all"), and is idempotent |
| Seqs.FindIndex | components/barcode-result-modal.tsx:16 | `find`: the first index satisfying the predicate, or -1 when none does |
| Seqs.FindIndexAppend | components/barcode-result-modal.tsx:16 | searching `a + b` finds the index in `a`, otherwise the index in `b` shifted by `|a|` |
| Seqs.FilterMembers | app/page.tsx:63 | `filter` keeps exactly the elements that pass |
| Seqs.FilterIdempotent | app/page.tsx:84 | filtering twice by one predicate is filtering once |
| Seqs.SumAppend | components/charts/quick-stats.tsx:20 | `reduce` summing over `a + b` is the sum over `a` plus the sum over `b` |
| Seqs.DedupMembers | components/batch-transfer-modal.tsx:32 | the list of first occurrences has no repeats and the same members |
| Seqs.DedupDistinct | components/graph-visualizer.tsx:162 | a list without repeats is its own list of first occurrences |
| Text.ToLower | components/add-warehouse-modal.tsx:30 | `toLowerCase` keeps the length and lowers each letter |
| Text.TrimIsInfix | components/add-warehouse-modal.tsx:25 | `trim` returns the input with the leading and trailing blanks cut, and no blank left at either end |
| Text.TrimEmptyIffBlank | components/add-warehouse-modal.tsx:25 | the trimmed name is empty exactly when the name is all blanks |
| Text.TrimIdempotent | components/add-warehouse-modal.tsx:35 | trimming a trimmed name changes nothing |
| Text.Truncate | components/charts/warehouse-overview.tsx:22 | a name no longer than the width is kept; a longer one keeps its first `n` characters and gets "..." |
| Text.NatToString | components/edit-item-modal.tsx:24 | `toString` of a quantity is a non-empty run of digits without a leading zero |
| Text.ParseInt | components/edit-item-modal.tsx:40 | `parseInt` yields a number exactly when, after leading blanks, the text starts with a digit |
| Text.ParseIntOfNatToString | components/edit-item-modal.tsx:24-40 | parsing the printed quantity gives the quantity back |
| Text.StrLessIrreflexive | components/inventory-table.tsx:46 | string `<` is irreflexive |
| Text.StrLessTransitive | components/inventory-table.tsx:46-47 | string `<` is transitive |
| Text.StrLessTotal | components/inventory-table.tsx:46-47 | of two different strings one is `<` the other |
| Text.SplitJoin | lib/export.ts:17-19 | splitting a joined list at the separator gives the parts back when no part contains it |
| Text.JoinFree | lib/export.ts:17-19 | joining parts free of a character with another separator leaves the result free of it |
| Page.Recounted | app/page.tsx:36-43 | every warehouse keeps its id and name and gets the number of items whose location is its name |
| Page.NewItem | app/page.tsx:45-52 | the new item has the form's fields, the fresh id and the current stamp |
| Page.Updated | app/page.tsx:54-60 | every item with the update's id becomes the update, restamped; every other item is kept |
| Page.Transferred | app/page.tsx:66-72 | every item with the id gets the new location and stamp; every other item is kept |
| Page.DeletedSpec | app/page.tsx:62-64 | deleting keeps an item iff its id differs, removes as many items as carry the id, and keeps the order |
| Page.AddItemCounts | app/page.tsx:36-52 | adding an item raises the count of its location by one and no other |
| Page.TransferCounts | app/page.tsx:36-72 | moving an item with a unique id moves one unit of count from its old location to the new one |
| Page.UnmovedCounts | app/page.tsx:66-72 | transferring an unknown id changes nothing |
| Page.InventoryStore.constructor | app/page.tsx:20-26 | two warehouses named "Main Warehouse" and "Secondary Warehouse" with count 0, no items, "all" selected |
| Page.InventoryStore.RecountWarehouses | app/page.tsx:36-43 | after the effect every count is current |
| Page.InventoryStore.AddItem | app/page.tsx:45-52 | the new item is appended and the counts are current again |
| Page.InventoryStore.UpdateItem | app/page.tsx:54-60 | the items become `Updated` and the counts are current again |
| Page.InventoryStore.DeleteItem | app/page.tsx:62-64 | the items become `Deleted` and the counts are current again |
| Page.InventoryStore.TransferItem | app/page.tsx:66-72 | the items become `Transferred` and the counts are current again |
| Page.InventoryStore.AddWarehouse | app/page.tsx:74-81 | the new warehouse is appended with count 0, which is current when no item is stored under its name |
| Page.InventoryStore.SelectWarehouse | app/page.tsx:26 | the selection becomes the value chosen |
| Page.InventoryStore.FilteredItems | app/page.tsx:83-84 | the items shown are all items for "all", otherwise the items at the selected location |
| InventoryTable.Resorted | components/inventory-table.tsx:23-30 | a click on the sorted column flips the direction; a click on another column sorts it ascending |
| InventoryTable.ResortedTwice | components/inventory-table.tsx:23-30 | two clicks on the sorted column restore the direction |
| InventoryTable.Compare | components/inventory-table.tsx:32-49 | the comparator returns -1, 0 or 1; 0 exactly when neither key is below the other; negative when the first key is below the second (ascending) or above it (descending) |
| InventoryTable.CompareAntisymmetric | components/inventory-table.tsx:46-48 | swapping the arguments negates the result |
| InventoryTable.MissingCategoryTies | components/inventory-table.tsx:33-48 | under the category column an item without a category ties with every item |
| InventoryTable.CompareIgnoresCase | components/inventory-table.tsx:41-44 | name, SKU and location compare without regard to case |
| InventoryTable.BeforeIsWeakOrder | components/inventory-table.tsx:32-49 | when every key is defined, the comparator is a strict weak order |
| InventoryTable.SortedItemsSpec | components/inventory-table.tsx:32 | the sorted rows are a permutation of the items and, when every key is defined, no row is strictly before an earlier one |
| InventoryTable.SortState.constructor | components/inventory-table.tsx:20-21 | the table opens sorted by name, ascending |
| InventoryTable.SortState.HandleSort | components/inventory-table.tsx:23-30 | the column and direction become `Resorted` of the old ones |
| InventoryTable.SortState.Rows | components/inventory-table.tsx:32-49 | the rows shown are a permutation of the items |
| EditItem.InitialForm | components/edit-item-modal.tsx:21-27 | the form starts from the item: name, SKU and location copied, the quantity text parses back to the quantity, and the category text is the category, empty iff the category is absent or empty |
| EditItem.Submitted | components/edit-item-modal.tsx:29-46 | nothing is submitted iff name, SKU, quantity or location is empty; otherwise the item keeps id and stamp and takes the form's fields, an empty category becoming absent |
| EditItem.UntouchedFormRoundTrip | components/edit-item-modal.tsx:21-46 | submitting the untouched form gives back the item itself |
| EditItem.EmptyCategoryCleared | components/edit-item-modal.tsx:42 | an emptied category text clears the category |
| EditItem.EditItemModal.Edit | components/edit-item-modal.tsx:64-115 | one field of the form changes and the others stay |
| EditItem.EditItemModal.Submit | components/edit-item-modal.tsx:29-46 | the dialog hands back `Submitted` of its item and form |
| BatchEdit.Toggled | components/batch-edit-modal.tsx:60-65 | the toggled box flips and the other two stay |
| BatchEdit.ToggledTwice | components/batch-edit-modal.tsx:60-65 | toggling twice restores the boxes |
| BatchEdit.Edited | components/batch-edit-modal.tsx:37-54 | id, name and SKU never change and the stamp always does; the location changes only when checked and a non-empty location is chosen, and then to it; the category is set whenever checked, an empty text clearing it; the quantity changes only when checked and typed, to the parsed number |
| BatchEdit.BatchEdited | components/batch-edit-modal.tsx:37-54 | one edited copy per selected item, in order |
| BatchEdit.NothingCheckedRestamps | components/batch-edit-modal.tsx:37-54 | with no box checked the items are only restamped |
| BatchEdit.EditedIdempotent | components/batch-edit-modal.tsx:37-54 | applying the same edit twice changes nothing more |
| BatchEdit.EnabledSubmitApplies | components/batch-edit-modal.tsx:177-181 | when the button is enabled some box is checked and every checked field takes effect on every item |
| BatchEdit.BatchEditModal.ToggleField | components/batch-edit-modal.tsx:60-65 | the boxes become `Toggled` and the inputs stay |
| BatchEdit.BatchEditModal.SetInput | components/batch-edit-modal.tsx:102-162 | one input changes and the boxes stay |
| BatchEdit.BatchEditModal.Submit | components/batch-edit-modal.tsx:34-58 | the dialog hands back `BatchEdited` of the selected items |
| Transfer.DestinationsSpec | components/transfer-modal.tsx:22 | a warehouse is offered iff it is listed and not named as the item's location; offering distributes over concatenation |
| Transfer.Submitted | components/transfer-modal.tsx:24-33 | nothing is submitted iff no location is chosen; otherwise the item's id with the location |
| Transfer.DisabledIffNoRequest | components/transfer-modal.tsx:91 | the button is disabled exactly when submitting would do nothing |
| Transfer.OfferedDestinationMoves | components/transfer-modal.tsx:22-33 | choosing an offered warehouse moves the item to a location different from its own |
| BatchTransfer.GroupedSpec | components/batch-transfer-modal.tsx:23-32 | the keys are the locations in order of first appearance; a location is a key iff some item is there, and its group is the items at that location in order |
| BatchTransfer.GroupTotalIsCount | components/batch-transfer-modal.tsx:23-29 | the groups hold as many items as were selected |
| BatchTransfer.GroupByLocation | components/batch-transfer-modal.tsx:23-29 | the `reduce` loop builds `Grouped(items)`: keys in first-appearance order, each group the items at that location |
| BatchTransfer.GroupedAsWrittenSpec | components/batch-transfer-modal.tsx:23-29 | the grouping as written throws exactly when an item's location is an inherited property name, and otherwise equals the intended grouping |
| BatchTransfer.ConstructorLocationThrows | components/batch-transfer-modal.tsx:24-27 | one item at the location "constructor" makes the grouping as written throw, where the intended grouping has one group |
| BatchTransfer.SingleLocation | components/batch-transfer-modal.tsx:32-36 | there is one current location iff the selection is non-empty and all at one place, which is then the first item's |
| BatchTransfer.AvailableSpec | components/batch-transfer-modal.tsx:35-36 | with one current location a warehouse is offered iff it is not named so; otherwise every warehouse is offered |
| BatchTransfer.Submitted | components/batch-transfer-modal.tsx:38-50 | nothing is submitted iff no location is chosen; otherwise the ids of all selected items with the location |
| BatchTransfer.DisabledIffNoRequest | components/batch-transfer-modal.tsx:122 | the button is disabled exactly when submitting would do nothing |
| BatchTransfer.BatchTransferModal.Choose | components/batch-transfer-modal.tsx:104 | the chosen location becomes the value |
| BatchTransfer.BatchTransferModal.Submit | components/batch-transfer-modal.tsx:38-50 | the dialog hands back `Submitted` of the selection and the choice |
| AddWarehouse.Validate | components/add-warehouse-modal.tsx:22-37 | "Warehouse name is required" iff the trimmed name is empty; "A warehouse with this name already exists" iff it is not and some warehouse has the same name ignoring case; otherwise the trimmed name is accepted, non-empty and unique |
| AddWarehouse.ValidateTrimmed | components/add-warehouse-modal.tsx:25-35 | validating the trimmed name gives the same outcome |
| AddWarehouse.AcceptedStaysDistinct | components/add-warehouse-modal.tsx:30-35 | adding an accepted name keeps the names distinct ignoring case, and submitting it again is refused as taken |
| AddWarehouse.AddWarehouseModal.SetName | components/add-warehouse-modal.tsx:55-58 | typing sets the name and clears the error |
| AddWarehouse.AddWarehouseModal.Submit | components/add-warehouse-modal.tsx:22-37 | a rejected name sets the error and adds nothing; an accepted one is handed back trimmed |
| BarcodeResult.MatchingItem | components/barcode-result-modal.tsx:16 | no item is found iff no SKU equals the code; a found item is the first whose SKU equals it |
| BarcodeResult.MatchingItemAppend | components/barcode-result-modal.tsx:16 | a match in the front part of the list wins over any later one |
| BarcodeResult.Actions | components/barcode-result-modal.tsx:37-84 | exactly one action is offered: adding a new item iff nothing matches, otherwise editing the first item whose SKU equals the code |
| BarcodeResult.CategoryShown | components/barcode-result-modal.tsx:60 | "-" is shown iff the category is absent, empty or itself "-"; anything else shown is the category |
| QuickStats.StatsOf | components/charts/quick-stats.tsx:15-30 | over the selected items: the total is their number, the quantity their summed quantity, low stock the number below 10 (never more than the total); active warehouses are those with a non-zero count for "all", otherwise 1 |
| QuickStats.StatsOfFiltered | components/dashboard.tsx:17-32 | the figures from the already filtered list equal those from the full list |
| QuickStats.QuantityCoversStock | components/charts/quick-stats.tsx:20-21 | the total quantity is at least 10 for every item not low on stock |
| QuickStats.StatsQuantityBound | components/charts/quick-stats.tsx:19-21 | the same bound stated on the figures |
| QuickStats.ActiveIffStocked | components/charts/quick-stats.tsx:22 | with a current count a warehouse is active iff some item is stored there |
| CategoryDistribution.SlicesFor | components/charts/category-distribution.tsx:36-40 | one slice per label with that label's item count and quantity |
| CategoryDistribution.ChartData | components/charts/category-distribution.tsx:24-41 | the `Map` loop yields one slice per category in order of first appearance, with its count and total quantity |
| CategoryDistribution.DistributionTotals | components/charts/category-distribution.tsx:24-41 | the slice counts add up to the number of items and the slice values to the total quantity; no slice iff no item |
| CategoryDistribution.SliceColor | components/charts/category-distribution.tsx:112 | the colour is from the palette, the i-th for the first five |
| CategoryDistribution.SliceColorCycle | components/charts/category-distribution.tsx:112 | colours repeat every five slices and neighbours differ |
| WarehouseOverview.WarehouseBar | components/charts/warehouse-overview.tsx:29-42 | the bar of a warehouse has its name shortened to 8, the number of items there and their total quantity |
| WarehouseOverview.ItemBar | components/charts/warehouse-overview.tsx:21-25 | the bar of an item has its name shortened to 10 and its quantity |
| WarehouseOverview.ChartData | components/charts/warehouse-overview.tsx:17-43 | with "all" one bar per warehouse, otherwise one bar per item at the selection |
| WarehouseOverview.ItemBarsTotal | components/charts/warehouse-overview.tsx:20-31 | the item bars add up to the items' total quantity |
| WarehouseOverview.ViewsAgree | components/charts/warehouse-overview.tsx:17-43 | a warehouse's bar in the overview equals the sum of the item bars when that warehouse is selected, and its item number matches a current count |
| WarehouseOverview.Title | components/charts/warehouse-overview.tsx:45 | "Inventory by Warehouse" for "all", else "Items in " and the selection |
| WarehouseOverview.Description | components/charts/warehouse-overview.tsx:47-50 | one description for "all", the other otherwise |
| WarehouseOverview.TitleNamesSelection | components/charts/warehouse-overview.tsx:45 | different selections get different titles |
| WarehouseOverview.BarSize | components/charts/warehouse-overview.tsx:90 | bars are 60 wide for one bar, 80 for none or two, 40 for three or more |
| Dashboard.DashboardTitle | components/dashboard.tsx:21 | "All Warehouses Overview" for "all", else the selection and " Dashboard" |
| Dashboard.DashboardTitleNamesSelection | components/dashboard.tsx:21 | different selections get different titles |
| Dashboard.PanelsOf | components/dashboard.tsx:17-39 | the overview gets every item; stats, categories and trends get the selected items |
| Dashboard.PanelsConsistent | components/dashboard.tsx:17-39 | the stats panel shows the figures of the selection and the category panel counts as many items as the stats panel |
| Sidebar.TotalCountSpec | components/sidebar.tsx:74 | the total is at least every warehouse's count and is zero iff every count is |
| Sidebar.MaxCount | components/sidebar.tsx:78 | the maximum is at least 1, bounds every count, and is some count unless it is 1 |
| Sidebar.PercentageBounds | components/sidebar.tsx:78-79 | every bar is between 0 and 100 percent, and full exactly for a warehouse with the maximum count |
| Sidebar.SidebarState.ToggleMobile | components/sidebar.tsx:18-20 | the drawer flips |
| Sidebar.SidebarState.CloseOverlay | components/sidebar.tsx:41 | the drawer closes |
| Sidebar.SidebarState.Select | components/sidebar.tsx:22-28 | the choice is forwarded and the drawer is closed |
| Export.Quoted | lib/export.ts:11 | the quoted field is the text between two double quotes |
| Export.CategoryText | lib/export.ts:15 | an absent category is exported as the empty text |
| Export.CsvRows | lib/export.ts:8-18 | one CSV line per item, its seven fields joined by commas |
| Export.TsvRows | lib/export.ts:42-52 | one sheet line per item, its seven fields joined by tabs |
| Export.HeadersFree | lib/export.ts:4 | no header contains a comma, tab or line break |
| Export.QuotedFree | lib/export.ts:11-16 | quoting adds no character but the double quote |
| Export.CsvFieldsFree | lib/export.ts:8-18 | the CSV fields avoid a comma, tab or line break exactly when the sheet fields do |
| Export.CsvLines | lib/export.ts:6-19 | when no field has a line break the CSV splits into the header line and one line per item |
| Export.CsvRowFields | lib/export.ts:8-18 | when no field has a comma a CSV line splits back into the item's fields |
| Export.TsvLines | lib/export.ts:40-53 | when no field has a line break the sheet splits into the header line and one line per item |
| Export.TsvRoundTrip | lib/export.ts:38-53 | when no field has a tab or line break the sheet reads back as the headers and each item's fields |
| GraphScene.WarehouseRadius | components/graph-visualizer.tsx:78 | a warehouse disc is 40 to 60 wide, reaching 60 at 10 items |
| GraphScene.CategoryRadius | components/graph-visualizer.tsx:101 | a category disc is 25 to 40 wide, reaching 40 at 10 items |
| GraphScene.ItemRadius | components/graph-visualizer.tsx:133 | an item disc is 8 to 23 wide, reaching 23 at quantity 75 |
| GraphScene.CategoryColor | components/graph-visualizer.tsx:102 | the colour is from the five-colour palette, the i-th for the first five |
| GraphScene.BuildScene | components/graph-visualizer.tsx:58-163 | two edges per placed item; the nodes are listed under the distinct keys in first-set order; without key clashes, warehouse nodes, then category nodes, then item nodes, each warehouse and category node connected to its placed items |
| GraphScene.KeyedInOrder | components/graph-visualizer.tsx:162 | every key, listed once in first-set order, has its node under its own id |
| GraphScene.BuildNodeMap | components/graph-visualizer.tsx:59-160 | the map holds exactly the scene keys, each node under its id; without clashes the warehouse and category nodes hold their connections and each placed item has its node |
| GraphScene.AddWarehouseNodes | components/graph-visualizer.tsx:67-83 | the warehouse loop sets exactly the warehouse ids, and with distinct ids each warehouse has its node without connections |
| GraphScene.AddCategoryNodes | components/graph-visualizer.tsx:89-106 | the category loop sets the category nodes in order |
| GraphScene.NewCategoryNode | components/graph-visualizer.tsx:95-105 | a category node is sized by its item count and coloured by its index |
| GraphScene.AddItemNodes | components/graph-visualizer.tsx:109-160 | the item loop yields the map and edges of `PlaceItems` |
| GraphScene.PlaceItemsKeyed | components/graph-visualizer.tsx:109-160 | the item loop adds exactly the ids of placed items as keys, each node under its id |
| GraphScene.PlaceItemsEdges | components/graph-visualizer.tsx:142-154 | the item loop appends the scene's edges |
| GraphFacts.MatchIndexIsFirstMatch | components/graph-visualizer.tsx:110 | `find` by name returns the first warehouse with the item's location, or none |
| GraphFacts.MatchIndexIsFindIndex | components/graph-visualizer.tsx:110 | the warehouse search is `find` with the name test |
| GraphFacts.PlacedIsFilter | components/graph-visualizer.tsx:109-113 | the items that get a node are those whose location names a warehouse |
| GraphFacts.WarehouseConnectionsAreFilter | components/graph-visualizer.tsx:157 | a warehouse node's connections are the ids of the items matched to it, in order |
| GraphFacts.CategoryConnectionsAreFilter | components/graph-visualizer.tsx:158 | a category node's connections are the ids of the placed items with that label, in order |
| GraphFacts.CategorySizeIsCount | components/graph-visualizer.tsx:90 | a category's size is the number of items with that label |
| GraphFacts.SceneEdgesShape | components/graph-visualizer.tsx:142-154 | two edges per placed item: warehouse to item weighted by quantity, then item to category weighted 1 |
| GraphFacts.CategoryColorCycle | components/graph-visualizer.tsx:102 | category colours repeat every five and neighbours differ |
| GraphView.ZoomedIn | components/graph-visualizer.tsx:296 | zooming in never passes 3 and never shrinks a zoom within range |
| GraphView.ZoomedOut | components/graph-visualizer.tsx:297 | zooming out never passes 0.3 and never grows a zoom within range |
| GraphView.ZoomOutUndoesZoomIn | components/graph-visualizer.tsx:296-297 | away from the maximum, zooming out undoes zooming in |
| GraphView.ZoomInUndoesZoomOut | components/graph-visualizer.tsx:296-297 | away from the minimum, zooming in undoes zooming out |
| GraphView.HitsIsWithinRadius | components/graph-visualizer.tsx:265-266 | the squared-distance test is the source's distance test |
| GraphView.FirstHit | components/graph-visualizer.tsx:264-267 | no node is hit iff no disc holds the point; otherwise the first node whose disc does |
| GraphView.ToScene | components/graph-visualizer.tsx:260-261 | the click in scene coordinates maps back to the click under the canvas transform |
| GraphView.SelectedItem | components/graph-visualizer.tsx:271-273 | an item is handed on exactly when an item node is clicked |
| GraphView.Controller.ZoomIn | components/graph-visualizer.tsx:296 | the zoom becomes `ZoomedIn` and nothing else changes |
| GraphView.Controller.ZoomOut | components/graph-visualizer.tsx:297 | the zoom becomes `ZoomedOut` and nothing else changes |
| GraphView.Controller.Reset | components/graph-visualizer.tsx:298-302 | zoom 1, no offset, nothing selected |
| GraphView.Controller.MouseDown | components/graph-visualizer.tsx:277-280 | a drag starts from the cursor relative to the offset |
| GraphView.Controller.MouseMove | components/graph-visualizer.tsx:282-289 | while dragging, the offset follows the cursor from where the drag started; otherwise nothing changes |
| GraphView.Controller.MouseUp | components/graph-visualizer.tsx:291-293 | the drag ends |
| GraphView.Controller.Click | components/graph-visualizer.tsx:255-275 | the selection becomes the first node hit at the click and its item, if any, is handed on |

## Left out

- Drawing: the canvas, the device pixel ratio, labels and fonts (graph-visualizer.tsx), and the chart libraries. Only the data handed to them is modelled.
- Node positions: they come from `Math.cos`/`Math.sin` and `Math.random`, so the model takes them from a `Layout` parameter.
- Identity of objects: the scene nodes are values in a map. Each `connections.push` is written as an update of that map entry.
- Clocks and ids: `new Date().toISOString()`, `toLocaleString` and `generateId()` are parameters. The date formatting is a function parameter of the export.
- The barcode scanner component, the inventory trends chart and the top bar are not part of this model.
- The Blob download in the export is left out; only the document text is modelled.
- Text.ToLower: lowers ASCII letters only, not the full Unicode case mapping.
- Text.TrimIsInfix: trims ASCII blanks (space, tab, line feed, carriage return, form feed, vertical tab) only, not every Unicode white space.
- Text.ParseInt: reads unsigned decimal digits only; a sign, a `0x` prefix and NaN are not modelled.
- Text.Truncate: lengths and `s[..n]` count Unicode code points, while `length` and `substring` count UTF-16 code units; the two differ for characters outside the Basic Multilingual Plane, where the source can split a surrogate pair.
- Text.StrLessTotal: string `<` is modelled as code-point order, while JavaScript compares UTF-16 code units; the two orders differ between characters outside the Basic Multilingual Plane and high characters inside it. The table's string keys (InventoryTable.Compare) inherit this.
- BatchEdit.Edited: every item of a batch gets the same stamp `now`, while the source reads the clock once per item; items of one batch may get stamps a millisecond apart there.
- Export.Quoted: it does not double embedded double quotes, as the source does not. Such a field breaks section 2, rule 7 of RFC 4180.
- BatchEdit.Edited: only for a quantity that `parseInt` reads as a number, because a NaN or a negative quantity cannot be held in the model's `nat`.
- BatchEdit.BatchEdited and BatchEdit.BatchEditModal.Submit carry the same requirement for the same reason.
- EditItem.Submitted: the same requirement on the quantity text.
- EditItem.EditItemModal.Submit: the same requirement on the quantity text.
- BatchTransfer.GroupedSpec: `Object.keys` lists integer-like keys before the others; the model keeps first-appearance order. Only the number of keys and the single key are used by the dialog, and neither depends on the order.
- InventoryTable.SortedItemsSpec: with an undefined key (an absent category, an unparsable date), `sort` runs with an inconsistent comparator and its order is engine-defined. The model then states only the permutation. Stability is not stated either.
- Page.InventoryStore.AddWarehouse: the counts are current afterwards only when no item is already stored under the new name. The source waits for the next change of the items to recount.

## Findings

| source | as written | input that shows it | evidently intended | confidence | as-written member | corrected member |
|---|---|---|---|---|---|---|
| components/batch-transfer-modal.tsx:23-29 | groups into a plain object `{}` and tests `!acc[item.location]`, which sees inherited properties | a selected item whose location is "constructor" (a warehouse name the add-warehouse dialog accepts); `acc["constructor"]` is the Object constructor, so no group is created and `push` throws | an own-key grouping: one group per location, in order | not executed | BatchTransfer.ConstructorLocationThrows | BatchTransfer.GroupByLocation |
