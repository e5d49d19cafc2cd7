// The dashboard page (components/dashboard.tsx): its title, and which item
// list each chart receives.
module Dashboard {
  import Seqs
  import opened Types
  import QuickStats
  import CategoryDistribution

  const AllTitle: string := "All Warehouses Overview"
  const TitleSuffix: string := " Dashboard"

  /** `dashboardTitle`. */
  function DashboardTitle(selected: string): (r: string)
    ensures selected == All ==> r == AllTitle
    ensures selected != All ==> r == selected + TitleSuffix
  {
    if selected == All then AllTitle else selected + TitleSuffix
  }

  /** Different selections get different titles. */
  lemma DashboardTitleNamesSelection(a: string, b: string)
    ensures DashboardTitle(a) == DashboardTitle(b) <==> a == b
  {
    if a != All && b != All && DashboardTitle(a) == DashboardTitle(b) {
      assert a == (a + TitleSuffix)[..|a|] && b == (b + TitleSuffix)[..|b|];
    }
    if a != All && b == All {
      var t := DashboardTitle(a);
      assert t[|t| - 1] == 'd' != AllTitle[|AllTitle| - 1];
    }
    if b != All && a == All {
      var t := DashboardTitle(b);
      assert t[|t| - 1] == 'd' != AllTitle[|AllTitle| - 1];
    }
  }

  /** The item lists handed to the four charts. */
  datatype Panels = Panels(quickStats: seq<Item>, overview: seq<Item>, categories: seq<Item>, trends: seq<Item>)

  /** `filteredItems` goes to the stats, the category chart and the trends; the warehouse chart gets every item. */
  function PanelsOf(items: seq<Item>, selected: string): (r: Panels)
    ensures r.overview == items
    ensures r.quickStats == r.categories == r.trends == BySelection(items, selected)
    ensures selected == All ==> r == Panels(items, items, items, items)
  {
    var filtered := BySelection(items, selected);
    Panels(filtered, items, filtered, filtered)
  }

  /**
   * What the dashboard shows for a selection: the stat cards agree with
   * stats over the whole list, and the category chart accounts for exactly
   * the selected items.
   */
  lemma PanelsConsistent(items: seq<Item>, warehouses: seq<Warehouse>, selected: string)
    ensures var p := PanelsOf(items, selected);
      && QuickStats.StatsOf(p.quickStats, warehouses, selected) == QuickStats.StatsOf(items, warehouses, selected)
      && Seqs.Sum(CategoryDistribution.Distribution(p.categories), CategoryDistribution.CountOf) == |BySelection(items, selected)|
  {
    QuickStats.StatsOfFiltered(items, warehouses, selected);
    CategoryDistribution.DistributionTotals(BySelection(items, selected));
  }
}
