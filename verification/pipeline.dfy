/** The filter step of `loadTurnaroundItems`: a record is shown when it is in the
    selected month and its description contains the search text, and every shown
    record carries its freshly computed metrics. */
module Pipeline {
  import opened Records
  import opened Strings
  import opened Seqs
  import opened Metrics

  /** The month selector's value that disables month filtering. */
  const AllMonths: string := "all"

  /** The search box handler stores the query lower-cased. */
  function SearchQuery(input: string): (q: string)
    ensures |q| == |input|
    ensures forall i :: 0 <= i < |q| ==> q[i] == LowerChar(input[i])
    ensures forall i :: 0 <= i < |q| ==> !IsUpper(q[i])
    ensures Lower(q) == q
  {
    LowerIdempotent(input);
    Lower(input)
  }

  /** `selectedMonthFilter === 'all' || (received && received.startsWith(month))`. */
  predicate InMonth(x: Item, month: string)
  {
    month == AllMonths || (x.fields.received.text != "" && StartsWith(x.fields.received.text, month))
  }

  /** `query === '' || (description && description.toLowerCase().includes(query))`. */
  predicate MatchesQuery(x: Item, query: string)
  {
    query == "" || (x.fields.description != "" && Includes(Lower(x.fields.description), query))
  }

  function MonthFilter(month: string): Item -> bool
  {
    (x: Item) => InMonth(x, month)
  }

  function SearchFilter(query: string): Item -> bool
  {
    (x: Item) => MatchesQuery(x, query)
  }

  /** The filter callback: both conditions must hold. */
  function Keep(month: string, query: string): Item -> bool
  {
    (x: Item) => InMonth(x, month) && MatchesQuery(x, query)
  }

  /** The records shown, in the order of `sorted`. */
  function Visible(sorted: seq<Item>, month: string, query: string): (r: seq<Item>)
    ensures |r| <= |sorted|
    ensures forall x :: x in r <==> x in sorted && InMonth(x, month) && MatchesQuery(x, query)
  {
    var r := Filter(Keep(month, query), sorted);
    assert forall x :: x in r <==> x in sorted && InMonth(x, month) && MatchesQuery(x, query) by {
      forall x {
        FilterMembership(Keep(month, query), sorted, x);
      }
    }
    r
  }

  /** The shown list is an order-preserving subsequence of the sorted list, and a
      record that passes both filters is shown as often as it is stored. */
  lemma VisibleIsSubsequence(sorted: seq<Item>, month: string, query: string)
    ensures IsSubsequence(Visible(sorted, month, query), sorted)
    ensures forall x: Item :: InMonth(x, month) && MatchesQuery(x, query) ==>
      multiset(Visible(sorted, month, query))[x] == multiset(sorted)[x]
  {
    FilterIsSubsequence(Keep(month, query), sorted);
    forall x: Item | InMonth(x, month) && MatchesQuery(x, query)
      ensures multiset(Visible(sorted, month, query))[x] == multiset(sorted)[x]
    {
      FilterMultiset(Keep(month, query), sorted, x);
    }
  }

  /** Filtering by month and then by text, or the other way round, shows the same list. */
  lemma FiltersCommute(sorted: seq<Item>, month: string, query: string)
    ensures Visible(sorted, month, query) == Filter(MonthFilter(month), Filter(SearchFilter(query), sorted))
    ensures Visible(sorted, month, query) == Filter(SearchFilter(query), Filter(MonthFilter(month), sorted))
  {
    FilterConjunction(Keep(month, query), MonthFilter(month), SearchFilter(query), sorted);
    FilterCommutes(MonthFilter(month), SearchFilter(query), sorted);
  }

  /** With "all" months and an empty search, every record is shown. */
  lemma NoFilterShowsAll(sorted: seq<Item>)
    ensures Visible(sorted, AllMonths, "") == sorted
  {
    assert forall i :: 0 <= i < |sorted| ==> Keep(AllMonths, "")(sorted[i]);
    FilterKeepsAll(Keep(AllMonths, ""), sorted);
  }

  /** A shown record `{ ...item, ...metrics }`: the metric fields do not clash
      with any stored field, so the record itself is intact. */
  datatype Enriched = Enriched(item: Item, metrics: Metrics)

  /** Attaches the computed metrics to every shown record, in order. */
  function Enrich(items: seq<Item>): (r: seq<Enriched>)
    ensures |r| == |items|
    ensures forall i :: 0 <= i < |r| ==> r[i].item == items[i] && Coherent(r[i].metrics)
  {
    seq(|items|, i requires 0 <= i < |items| => Enriched(items[i], CalculateItemMetrics(items[i])))
  }

  /** Recomputing the metrics of a shown record, as the overview and the export
      do, gives back exactly the metrics attached to it. */
  lemma RecomputeOnEnriched(items: seq<Item>, i: int)
    requires 0 <= i < |items|
    ensures CalculateItemMetrics(Enrich(items)[i].item) == Enrich(items)[i].metrics
  {
  }
}
