/** The bar chart's data series: one bar per shown record with a numeric
    turnaround, in display order, coloured by the record's classification. */
module Chart {
  import opened Strings
  import opened Seqs
  import opened Metrics
  import opened Pipeline

  /** One bar: its axis label, its height in hours, and its fill and border colours. */
  datatype Bar = Bar(caption: string, hours: real, background: string, border: string)

  /** CSS `rgba(...)` text for a colour given as its "r, g, b" channels. */
  function Rgba(channels: string, alpha: string): string
  {
    "rgba(" + channels + ", " + alpha + ")"
  }

  const MetChannels: string := "75, 192, 192"
  const BelowChannels: string := "255, 99, 132"
  const OtherChannels: string := "200, 200, 200"
  /** Bars are filled at 60% opacity and bordered at full opacity. */
  const FillAlpha: string := "0.6"
  const BorderAlpha: string := "1"

  /** Labels keep this many characters of the description. */
  const LabelWidth: nat := 20

  /** The chart keeps a shown record exactly when its turnaround is a number. */
  const HasTurnaround: Enriched -> bool := (e: Enriched) => e.metrics.turnaround.Num?

  /** `validItemsForChart`: the shown records with a numeric turnaround. */
  function Charted(items: seq<Enriched>): seq<Enriched>
  {
    Filter(HasTurnaround, items)
  }

  /** The channels of the colour for a classification: green-blue for MET, red
      for BELOW, grey otherwise. */
  function Channels(c: Classification): string
  {
    match c
    case MetTarget => MetChannels
    case BelowTarget => BelowChannels
    case Unclassified => OtherChannels
  }

  /** Fill and border colour for a classification: one colour, the fill
      translucent and the border opaque. */
  function Colours(c: Classification): (r: (string, string))
    ensures exists channels :: r == (Rgba(channels, FillAlpha), Rgba(channels, BorderAlpha))
  {
    (Rgba(Channels(c), FillAlpha), Rgba(Channels(c), BorderAlpha))
  }

  /** Different classifications get bars of different colours, fill and border alike. */
  lemma {:induction false} ColoursDistinguish(c1: Classification, c2: Classification)
    requires c1 != c2
    ensures Colours(c1).0 != Colours(c2).0
    ensures Colours(c1).1 != Colours(c2).1
  {
    var a, b := Channels(c1), Channels(c2);
    assert a[0] != b[0] || a[1] != b[1];
    var i := if a[0] != b[0] then 0 else 1;
    assert Colours(c1).0[5 + i] == a[i] && Colours(c2).0[5 + i] == b[i];
    assert Colours(c1).1[5 + i] == a[i] && Colours(c2).1[5 + i] == b[i];
  }

  /** The label of the bar at `index` (0-based): the first 20 characters of the
      description, "..." when it was cut, and the 1-based bar number; or
      "Item #n" when the description is blank. */
  function BarLabel(description: string, index: nat): (text: string)
    ensures var number := NatToString(index + 1);
      && (description == "" ==> text == "Item #" + number)
      && (description != "" ==>
            var head := Take(description, LabelWidth);
            && StartsWith(text, head)
            && |text| == |head| + (if |description| > LabelWidth then 3 else 0) + 3 + |number| + 1
            && (|description| > LabelWidth ==> text[|head|..|head| + 3] == "...")
            && text[|text| - |number| - 4..] == " (#" + number + ")")
  {
    var number := NatToString(index + 1);
    if description == "" then "Item #" + number
    else
      var head := Take(description, LabelWidth);
      var cut := if |description| > LabelWidth then "..." else "";
      var tail := " (#" + number + ")";
      var text := (head + cut) + tail;
      assert |text| == |head| + |cut| + |tail|;
      assert text[..|head|] == head;
      assert text[|head|..|head| + |cut|] == cut;
      assert text[|text| - |tail|..] == tail;
      text
  }

  /** The bars, one per charted record and in the same order. */
  function ChartSeries(items: seq<Enriched>): (r: seq<Bar>)
    ensures |r| == |Charted(items)|
    ensures forall i :: 0 <= i < |r| ==>
      var e := Charted(items)[i];
      && e.metrics.turnaround.Num?
      && r[i].hours == e.metrics.turnaround.value
      && (r[i].background, r[i].border) == Colours(e.metrics.result)
      && r[i].caption == BarLabel(e.item.fields.description, i)
    ensures r == [] <==> forall i :: 0 <= i < |items| ==> !items[i].metrics.turnaround.Num?
  {
    var c := Charted(items);
    FilterEmpty(HasTurnaround, items);
    assert forall i :: 0 <= i < |c| ==> c[i] in c;
    seq(|c|, i requires 0 <= i < |c| =>
      var e := c[i];
      var colours := Colours(e.metrics.result);
      Bar(BarLabel(e.item.fields.description, i), e.metrics.turnaround.value, colours.0, colours.1))
  }

  /** The charted records are the shown records with a numeric turnaround, in
      display order, none left out. */
  lemma ChartedIsSubsequence(items: seq<Enriched>)
    ensures IsSubsequence(Charted(items), items)
    ensures forall e: Enriched :: e.metrics.turnaround.Num? ==> multiset(Charted(items))[e] == multiset(items)[e]
  {
    FilterIsSubsequence(HasTurnaround, items);
    forall e: Enriched | e.metrics.turnaround.Num?
      ensures multiset(Charted(items))[e] == multiset(items)[e]
    {
      FilterMultiset(HasTurnaround, items, e);
    }
  }
}
