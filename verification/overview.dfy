/** The QA performance overview (`updateQaOverview`): record count, mean
    turnaround and mean efficiency over the records where they are numbers,
    and the MET / BELOW tallies. */
module Overview {
  import opened Rounding
  import opened Metrics
  import opened Pipeline

  /** The overview's running totals and counts, and the figures the panel shows:
      the record count, the two means ('N/A' when nothing was numeric) and the
      MET / BELOW counts. */
  datatype Summary = Summary(
    total: nat,
    turnaroundSum: real, turnaroundCount: nat,
    efficiencySum: real, efficiencyCount: nat,
    metCount: nat, belowCount: nat,
    avgTurnaround: Metric, avgEfficiency: Metric)

  /** The numeric turnaround values, in record order; the sentinels are left out. */
  function NumericTurnarounds(ms: seq<Metrics>): seq<real>
  {
    if ms == [] then []
    else
      var last := ms[|ms| - 1];
      NumericTurnarounds(ms[..|ms| - 1]) + (if last.turnaround.Num? then [last.turnaround.value] else [])
  }

  /** The numeric efficiency values, in record order; 'N/A' and 'Error' are left out. */
  function NumericEfficiencies(ms: seq<Metrics>): seq<real>
  {
    if ms == [] then []
    else
      var last := ms[|ms| - 1];
      NumericEfficiencies(ms[..|ms| - 1]) + (if last.efficiency.Num? then [last.efficiency.value] else [])
  }

  function CountResult(ms: seq<Metrics>, c: Classification): nat
  {
    if ms == [] then 0
    else CountResult(ms[..|ms| - 1], c) + (if ms[|ms| - 1].result == c then 1 else 0)
  }

  function Sum(xs: seq<real>): real
  {
    if xs == [] then 0.0 else Sum(xs[..|xs| - 1]) + xs[|xs| - 1]
  }

  /** `(sum / count).toFixed(2)`, or 'N/A' when nothing was counted. */
  function Mean(sum: real, count: nat): (m: Metric)
    ensures m.NA? <==> count == 0
    ensures count > 0 ==> m.Num?
    ensures m.Num? ==> TwoDecimalsOf(sum / count as real, m.value)
    ensures m.Num? && sum >= 0.0 ==> m.value >= 0.0
  {
    if count > 0 then
      assert sum >= 0.0 ==> sum / count as real >= 0.0;
      Num(Round2(sum / count as real))
    else NA
  }

  /** With a single record counted, the average shows exactly that record's
      two-decimal value. */
  lemma SingleMean(v: real)
    requires IsHundredths(v)
    ensures Mean(v, 1) == Num(v)
  {
    assert v / 1 as real == v;
    Round2Idempotent(v);
  }

  /** The metrics the overview recomputes from each shown record. */
  function Recomputed(items: seq<Enriched>): (ms: seq<Metrics>)
    ensures |ms| == |items|
    ensures forall i :: 0 <= i < |items| ==> ms[i] == CalculateItemMetrics(items[i].item)
  {
    seq(|items|, i requires 0 <= i < |items| => CalculateItemMetrics(items[i].item))
  }

  /** For coherent metrics, every classified record has a numeric efficiency, and
      every numeric efficiency comes with a numeric turnaround. */
  lemma {:induction false} CountsChain(ms: seq<Metrics>)
    requires forall i :: 0 <= i < |ms| ==> Coherent(ms[i])
    ensures CountResult(ms, MetTarget) + CountResult(ms, BelowTarget) == |NumericEfficiencies(ms)|
    ensures |NumericEfficiencies(ms)| <= |NumericTurnarounds(ms)| <= |ms|
  {
    if ms != [] {
      var init := ms[..|ms| - 1];
      assert forall i :: 0 <= i < |init| ==> init[i] == ms[i];
      CountsChain(init);
      assert Coherent(ms[|ms| - 1]);
    }
  }

  /** Every numeric turnaround is non-negative, so is their sum. */
  lemma {:induction false} TurnaroundSumNonNegative(ms: seq<Metrics>)
    requires forall i :: 0 <= i < |ms| ==> Coherent(ms[i])
    ensures Sum(NumericTurnarounds(ms)) >= 0.0
  {
    if ms != [] {
      var init := ms[..|ms| - 1];
      assert forall i :: 0 <= i < |init| ==> init[i] == ms[i];
      TurnaroundSumNonNegative(init);
      assert Coherent(ms[|ms| - 1]);
      var xs := NumericTurnarounds(ms);
      if ms[|ms| - 1].turnaround.Num? {
        assert xs[..|xs| - 1] == NumericTurnarounds(init);
      } else {
        assert xs == NumericTurnarounds(init);
      }
    }
  }

  /** The running totals of the overview loop. */
  datatype Tally = Tally(turnaroundSum: real, turnaroundCount: nat,
                         efficiencySum: real, efficiencyCount: nat,
                         metCount: nat, belowCount: nat)

  /** One iteration of the source's `forEach`: each of its three `if`s adds the
      record's contribution, or nothing. */
  function Step(acc: Tally, m: Metrics): Tally
  {
    Tally(
      acc.turnaroundSum + (if m.turnaround.Num? then m.turnaround.value else 0.0),
      acc.turnaroundCount + (if m.turnaround.Num? then 1 else 0),
      acc.efficiencySum + (if m.efficiency.Num? then m.efficiency.value else 0.0),
      acc.efficiencyCount + (if m.efficiency.Num? then 1 else 0),
      acc.metCount + (if m.result == MetTarget then 1 else 0),
      acc.belowCount + (if m.result == BelowTarget then 1 else 0))
  }

  function TallyOf(ms: seq<Metrics>): Tally
  {
    if ms == [] then Tally(0.0, 0, 0.0, 0, 0, 0) else Step(TallyOf(ms[..|ms| - 1]), ms[|ms| - 1])
  }

  /** The running totals are the sums and counts of the numeric values and the
      classification counts. */
  lemma {:induction false} TallyMeaning(ms: seq<Metrics>)
    ensures var t := TallyOf(ms);
      && t.turnaroundCount == |NumericTurnarounds(ms)| && t.turnaroundSum == Sum(NumericTurnarounds(ms))
      && t.efficiencyCount == |NumericEfficiencies(ms)| && t.efficiencySum == Sum(NumericEfficiencies(ms))
      && t.metCount == CountResult(ms, MetTarget) && t.belowCount == CountResult(ms, BelowTarget)
  {
    if ms != [] {
      var init := ms[..|ms| - 1];
      var m := ms[|ms| - 1];
      TallyMeaning(init);
      var t := NumericTurnarounds(init);
      if m.turnaround.Num? {
        assert (t + [m.turnaround.value])[..|t|] == t;
      } else {
        assert t + [] == t;
      }
      var e := NumericEfficiencies(init);
      if m.efficiency.Num? {
        assert (e + [m.efficiency.value])[..|e|] == e;
      } else {
        assert e + [] == e;
      }
    }
  }

  /** `updateQaOverview`: one pass over the shown records, recomputing each
      record's metrics and adding its numeric values to the running totals. */
  method UpdateQaOverview(items: seq<Enriched>) returns (s: Summary)
    ensures s.total == |items|
    ensures s.turnaroundCount == |NumericTurnarounds(Recomputed(items))|
    ensures s.turnaroundSum == Sum(NumericTurnarounds(Recomputed(items)))
    ensures s.efficiencyCount == |NumericEfficiencies(Recomputed(items))|
    ensures s.efficiencySum == Sum(NumericEfficiencies(Recomputed(items)))
    ensures s.metCount == CountResult(Recomputed(items), MetTarget)
    ensures s.belowCount == CountResult(Recomputed(items), BelowTarget)
    ensures s.metCount + s.belowCount == s.efficiencyCount <= s.turnaroundCount <= s.total
    ensures s.avgTurnaround == Mean(s.turnaroundSum, s.turnaroundCount)
    ensures s.avgEfficiency == Mean(s.efficiencySum, s.efficiencyCount)
    ensures s.avgTurnaround.Num? ==> s.avgTurnaround.value >= 0.0
  {
    ghost var ms := Recomputed(items);
    var acc := Tally(0.0, 0, 0.0, 0, 0, 0);
    var i := 0;
    while i < |items|
      invariant 0 <= i <= |items|
      invariant acc == TallyOf(ms[..i])
    {
      var m := CalculateItemMetrics(items[i].item);
      assert ms[..i + 1][..i] == ms[..i];
      acc := Step(acc, m);
      i := i + 1;
    }
    assert ms[..|items|] == ms;
    TallyMeaning(ms);
    CountsChain(ms);
    TurnaroundSumNonNegative(ms);
    s := Summary(|items|, acc.turnaroundSum, acc.turnaroundCount, acc.efficiencySum, acc.efficiencyCount,
                 acc.metCount, acc.belowCount,
                 Mean(acc.turnaroundSum, acc.turnaroundCount), Mean(acc.efficiencySum, acc.efficiencyCount));
  }
}
