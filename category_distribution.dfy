// The category pie chart (components/charts/category-distribution.tsx): one
// slice per category label, in the order the labels first occur, sized by
// the total quantity and annotated with the number of items.
module CategoryDistribution {
  import opened Seqs
  import opened Types

  /** The running entry of `categoryMap` for one label. */
  datatype Totals = Totals(count: nat, quantity: nat)

  /** One element of `chartData`. */
  datatype Slice = Slice(name: string, value: nat, count: nat)

  /** What the entry for label `c` holds after all of `items`: how many items have it, and their total quantity. */
  function Tally(items: seq<Item>, c: string): Totals
  {
    Totals(Count(items, InCategory(c)), Sum(Filter(items, InCategory(c)), QuantityOf))
  }

  /** The slices for the labels `labels`, in that order. */
  function SlicesFor(items: seq<Item>, labels: seq<string>): (r: seq<Slice>)
    ensures |r| == |labels|
    ensures forall k :: 0 <= k < |r| ==>
      r[k] == Slice(labels[k], Tally(items, labels[k]).quantity, Tally(items, labels[k]).count)
  {
    seq(|labels|, k requires 0 <= k < |labels| => Slice(labels[k], Tally(items, labels[k]).quantity, Tally(items, labels[k]).count))
  }

  /** `chartData`, as a value: one slice per label, in order of first appearance. */
  function Distribution(items: seq<Item>): seq<Slice>
  {
    SlicesFor(items, CategoryLabels(items))
  }

  /** One more item adds one to its own label's tally, and its quantity, and leaves the others alone. */
  lemma TallySnoc(items: seq<Item>, x: Item, c: string)
    ensures Tally(items + [x], c) ==
      if CategoryLabel(x) == c then Totals(Tally(items, c).count + 1, Tally(items, c).quantity + x.quantity)
      else Tally(items, c)
  {
    var s := items + [x];
    assert s[..|s| - 1] == items;
    var f := Filter(items, InCategory(c));
    if CategoryLabel(x) == c {
      assert Filter(s, InCategory(c)) == f + [x];
      assert (f + [x])[..|f|] == f;
    } else {
      assert Filter(s, InCategory(c)) == f + [];
      assert f + [] == f;
    }
  }

  /** A label that has not occurred yet has an empty tally. */
  lemma TallyUnseen(items: seq<Item>, c: string)
    requires c !in CategoryLabels(items)
    ensures Tally(items, c) == Totals(0, 0)
  {
    CategoryLabelsSpec(items);
    FilterNone(items, InCategory(c));
  }

  /**
   * `chartData` computed as the source does: a `forEach` that reads and
   * re-sets the entry of each item's label in a `Map` (whose keys keep their
   * insertion order), then one slice per entry.
   */
  method ChartData(items: seq<Item>) returns (data: seq<Slice>)
    ensures data == Distribution(items)
  {
    var categoryMap: map<string, Totals> := map[];
    var order: seq<string> := [];
    for i := 0 to |items|
      invariant order == CategoryLabels(items[..i])
      invariant forall c :: c in categoryMap <==> c in order
      invariant forall c :: c in categoryMap ==> categoryMap[c] == Tally(items[..i], c)
    {
      var category := CategoryLabel(items[i]);
      assert items[..i + 1] == items[..i] + [items[i]];
      CategoryLabelsSnoc(items[..i], items[i]);
      var existing := Totals(0, 0);
      if category in categoryMap {
        existing := categoryMap[category];
      } else {
        TallyUnseen(items[..i], category);
        order := order + [category];
      }
      categoryMap := categoryMap[category := Totals(existing.count + 1, existing.quantity + items[i].quantity)];
      forall c | c in categoryMap
        ensures categoryMap[c] == Tally(items[..i + 1], c)
      {
        TallySnoc(items[..i], items[i], c);
      }
    }
    assert items[..|items|] == items;
    data := seq(|order|, k requires 0 <= k < |order| => Slice(order[k], categoryMap[order[k]].quantity, categoryMap[order[k]].count));
  }

  function CountOf(s: Slice): nat { s.count }

  function ValueOf(s: Slice): nat { s.value }

  /** Slices that are all empty add up to nothing. */
  lemma {:induction false} EmptySlices(slices: seq<Slice>)
    requires forall k :: 0 <= k < |slices| ==> slices[k].count == 0 && slices[k].value == 0
    ensures Sum(slices, CountOf) == 0 && Sum(slices, ValueOf) == 0
  {
    if |slices| > 0 {
      EmptySlices(slices[..|slices| - 1]);
    }
  }

  /** One more item raises exactly the slice of its label, which occurs once. */
  lemma SlicesForSnoc(prefix: seq<Item>, x: Item, labels: seq<string>)
    requires Distinct(labels) && CategoryLabel(x) in labels
    ensures Sum(SlicesFor(prefix + [x], labels), CountOf) == Sum(SlicesFor(prefix, labels), CountOf) + 1
    ensures Sum(SlicesFor(prefix + [x], labels), ValueOf) == Sum(SlicesFor(prefix, labels), ValueOf) + x.quantity
  {
    var j := FirstIndex(labels, CategoryLabel(x));
    var a, b := SlicesFor(prefix, labels), SlicesFor(prefix + [x], labels);
    SlicesDiffer(prefix, x, labels, a, b);
    SumsRaised(a, b, j, x.quantity);
  }

  /** Raising slice `j` by one item of quantity `q` raises the totals by one and by `q`. */
  lemma SumsRaised(a: seq<Slice>, b: seq<Slice>, j: int, q: nat)
    requires |a| == |b| && 0 <= j < |a|
    requires forall k :: 0 <= k < |a| ==> CountOf(b[k]) == CountOf(a[k]) + (if k == j then 1 else 0)
    requires forall k :: 0 <= k < |a| ==> ValueOf(b[k]) == ValueOf(a[k]) + (if k == j then q else 0)
    ensures Sum(b, CountOf) == Sum(a, CountOf) + 1
    ensures Sum(b, ValueOf) == Sum(a, ValueOf) + q
  {
    SumOneChanged(a, b, CountOf, j, 1);
    SumOneChanged(a, b, ValueOf, j, q);
  }

  lemma SlicesDiffer(prefix: seq<Item>, x: Item, labels: seq<string>, a: seq<Slice>, b: seq<Slice>)
    requires Distinct(labels) && CategoryLabel(x) in labels
    requires a == SlicesFor(prefix, labels) && b == SlicesFor(prefix + [x], labels)
    ensures |a| == |b| == |labels|
    ensures forall k :: 0 <= k < |labels| ==>
      CountOf(b[k]) == CountOf(a[k]) + (if k == FirstIndex(labels, CategoryLabel(x)) then 1 else 0)
    ensures forall k :: 0 <= k < |labels| ==>
      ValueOf(b[k]) == ValueOf(a[k]) + (if k == FirstIndex(labels, CategoryLabel(x)) then x.quantity else 0)
  {
    forall k | 0 <= k < |labels|
      ensures CountOf(b[k]) == CountOf(a[k]) + (if k == FirstIndex(labels, CategoryLabel(x)) then 1 else 0)
      ensures ValueOf(b[k]) == ValueOf(a[k]) + (if k == FirstIndex(labels, CategoryLabel(x)) then x.quantity else 0)
    {
      SliceSnoc(prefix, x, labels, k);
    }
  }

  lemma SliceSnoc(prefix: seq<Item>, x: Item, labels: seq<string>, k: int)
    requires Distinct(labels) && CategoryLabel(x) in labels && 0 <= k < |labels|
    ensures var j, a, b := FirstIndex(labels, CategoryLabel(x)), SlicesFor(prefix, labels)[k], SlicesFor(prefix + [x], labels)[k];
      && b.count == a.count + (if k == j then 1 else 0)
      && b.value == a.value + (if k == j then x.quantity else 0)
  {
    var j := FirstIndex(labels, CategoryLabel(x));
    assert labels[k] == CategoryLabel(x) <==> k == j;
    TallySnoc(prefix, x, labels[k]);
  }

  /**
   * For labels listed once each and covering every item, the counts add up
   * to the number of items and the values to the total quantity.
   */
  lemma {:induction false} SlicesForTotals(items: seq<Item>, labels: seq<string>)
    requires Distinct(labels)
    requires forall i :: 0 <= i < |items| ==> CategoryLabel(items[i]) in labels
    ensures Sum(SlicesFor(items, labels), CountOf) == |items|
    ensures Sum(SlicesFor(items, labels), ValueOf) == Sum(items, QuantityOf)
  {
    if |items| == 0 {
      EmptySlices(SlicesFor(items, labels));
    } else {
      var prefix, x := items[..|items| - 1], items[|items| - 1];
      assert items == prefix + [x];
      SlicesForTotals(prefix, labels);
      SlicesForSnoc(prefix, x, labels);
    }
  }

  /**
   * The chart accounts for every item exactly once: its counts add up to the
   * number of items and its values to the total quantity; it has one slice
   * per label, and it is empty, which shows the placeholder card, exactly
   * when there are no items.
   */
  lemma DistributionTotals(items: seq<Item>)
    ensures Sum(Distribution(items), CountOf) == |items|
    ensures Sum(Distribution(items), ValueOf) == Sum(items, QuantityOf)
    ensures |Distribution(items)| == 0 <==> |items| == 0
  {
    CategoryLabelsSpec(items);
    forall i | 0 <= i < |items| ensures CategoryLabel(items[i]) in CategoryLabels(items) { }
    SlicesForTotals(items, CategoryLabels(items));
    if |items| > 0 {
      assert CategoryLabel(items[0]) in CategoryLabels(items);
    }
  }

  const ChartPalette: seq<string> := [
    "hsl(var(--chart-1))", "hsl(var(--chart-2))", "hsl(var(--chart-3))", "hsl(var(--chart-4))", "hsl(var(--chart-5))"
  ]

  /** `COLORS[index % COLORS.length]`: the fill of slice `index`. */
  function SliceColor(index: nat): (r: string)
    ensures r in ChartPalette
    ensures index < |ChartPalette| ==> r == ChartPalette[index]
  {
    ChartPalette[index % |ChartPalette|]
  }

  /** Slice colours repeat every five slices, and neighbouring slices differ. */
  lemma SliceColorCycle(index: nat)
    ensures SliceColor(index + |ChartPalette|) == SliceColor(index)
    ensures SliceColor(index) != SliceColor(index + 1)
  {
    var n := |ChartPalette|;
    assert (index + n) % n == index % n;
    assert (index + 1) % n == if index % n == n - 1 then 0 else index % n + 1;
  }
}
