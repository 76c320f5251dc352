/** `loadTurnaroundItems`: from the stored records to everything the page shows
    — the month options, the shown records with their metrics, the overview
    panel and the chart series. */
module Page {
  import opened Records
  import opened Seqs
  import opened Metrics
  import opened Chronology
  import opened Months
  import opened Pipeline
  import opened Overview
  import opened Chart

  datatype View = View(options: seq<string>, shown: seq<Enriched>, summary: Summary, bars: seq<Bar>)

  /** The stored records behind the shown ones. */
  function Bases(es: seq<Enriched>): (r: seq<Item>)
    ensures |r| == |es|
    ensures forall i :: 0 <= i < |es| ==> r[i] == es[i].item
  {
    seq(|es|, i requires 0 <= i < |es| => es[i].item)
  }

  /** The records the table shows: the stored records in creation order, less
      those outside the selected month or not matching the search text. Each
      record that passes both filters is shown as often as it is stored. */
  function ShownRecords(stored: seq<Item>, month: string, query: string): (r: seq<Item>)
    ensures |r| <= |stored|
    ensures SortedByCreated(r)
    ensures forall x: Item :: multiset(r)[x] == if InMonth(x, month) && MatchesQuery(x, query) then multiset(stored)[x] else 0
    ensures month == AllMonths && query == "" ==> r == SortByCreated(stored)
  {
    var sorted := SortByCreated(stored);
    assert |sorted| == |stored| by {
      assert |multiset(sorted)| == |multiset(stored)|;
    }
    var r := Visible(sorted, month, query);
    FilterKeepsSorted(Keep(month, query), sorted);
    assert forall x: Item :: multiset(r)[x] == if InMonth(x, month) && MatchesQuery(x, query) then multiset(stored)[x] else 0 by {
      forall x: Item {
        FilterMultiset(Keep(month, query), sorted, x);
      }
    }
    assert month == AllMonths && query == "" ==> r == sorted by {
      if month == AllMonths && query == "" {
        NoFilterShowsAll(sorted);
      }
    }
    r
  }

  /** The month options: every month a stored record was received in, once,
      ascending. */
  function PageMonthOptions(stored: seq<Item>): (r: seq<string>)
    ensures StrictlyAscending(r)
    ensures forall m :: m in r <==> m in MonthKeys(stored)
  {
    var sorted := SortByCreated(stored);
    MonthKeysOfPermutation(sorted, stored);
    MonthOptions(sorted)
  }

  /** Sorts the stored records, derives the month options from all of them,
      filters by month and search text, attaches metrics, and summarises and
      charts the result. `query` is the lower-cased search text. */
  method LoadTurnaroundItems(stored: seq<Item>, month: string, query: string) returns (v: View)
    ensures StrictlyAscending(v.options)
    ensures forall m :: m in v.options <==> m in MonthKeys(stored)
    ensures Bases(v.shown) == ShownRecords(stored, month, query)
    ensures forall i :: 0 <= i < |v.shown| ==> v.shown[i].metrics == CalculateItemMetrics(v.shown[i].item)
    ensures v.summary.total == |v.shown| <= |stored|
    ensures v.summary.turnaroundCount == |NumericTurnarounds(Recomputed(v.shown))|
    ensures v.summary.turnaroundSum == Sum(NumericTurnarounds(Recomputed(v.shown)))
    ensures v.summary.efficiencyCount == |NumericEfficiencies(Recomputed(v.shown))|
    ensures v.summary.efficiencySum == Sum(NumericEfficiencies(Recomputed(v.shown)))
    ensures v.summary.metCount == CountResult(Recomputed(v.shown), MetTarget)
    ensures v.summary.belowCount == CountResult(Recomputed(v.shown), BelowTarget)
    ensures v.summary.metCount + v.summary.belowCount == v.summary.efficiencyCount <= v.summary.turnaroundCount
    ensures v.summary.avgTurnaround == Mean(v.summary.turnaroundSum, v.summary.turnaroundCount)
    ensures v.summary.avgEfficiency == Mean(v.summary.efficiencySum, v.summary.efficiencyCount)
    ensures v.bars == ChartSeries(v.shown)
  {
    var options := PageMonthOptions(stored);
    var visible := ShownRecords(stored, month, query);
    var shown := Enrich(visible);
    assert Bases(shown) == visible;
    forall i | 0 <= i < |shown|
      ensures shown[i].metrics == CalculateItemMetrics(shown[i].item)
    {
      RecomputeOnEnriched(visible, i);
    }
    var summary := UpdateQaOverview(shown);
    v := View(options, shown, summary, ChartSeries(shown));
  }
}
