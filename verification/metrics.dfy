/** The metrics engine: turnaround time, target productivity, actual efficiency
    and the MET / BELOW classification of one record, each with the sentinel the
    record shows when it cannot be computed. */
module Metrics {
  import opened Wrappers
  import opened Records
  import opened Rounding

  /** A displayed metric: a number (the value `parseFloat` reads back from the
      two-decimal text), 'N/A', or 'Error'. */
  datatype Metric = Num(value: real) | NA | Error

  /** `efficiencyResult`: 'MET TARGET', 'BELOW TARGET' or 'N/A'. */
  datatype Classification = MetTarget | BelowTarget | Unclassified

  /** The metric fields `calculateItemMetrics` returns (the explanation strings aside). */
  datatype Metrics = Metrics(turnaround: Metric, target: Metric, efficiency: Metric, result: Classification)

  const MillisPerHour: int := 1000 * 60 * 60
  /** Target productivity is 98% of the turnaround time. */
  const TargetFactor: real := 0.98
  /** The fixed efficiency threshold, in percent. */
  const EfficiencyTarget: real := 98.0

  /** Turnaround time in hours, to two decimals. A missing or unparsable timestamp,
      or a finish before the receipt, leaves it 'N/A'; it is never 'Error'. */
  function TurnaroundHours(received: Stamp, finished: Stamp): (t: Metric)
    ensures !t.Error?
    ensures t.Num? <==>
      Millis(received).Some? && Millis(finished).Some? && Millis(finished).value >= Millis(received).value
    ensures t.Num? ==>
      var exact := (Millis(finished).value - Millis(received).value) as real / MillisPerHour as real;
      t.value >= 0.0 && TwoDecimalsOf(exact, t.value)
  {
    match (Millis(received), Millis(finished))
    case (Some(r), Some(f)) =>
      var diff := f - r;
      if diff >= 0 then Num(Round2(diff as real / MillisPerHour as real)) else NA
    case _ => NA
  }

  /** `targetProductivityHours`: 98% of the turnaround, to two decimals. */
  function TargetProductivity(t: Metric): (p: Metric)
    ensures p.Num? <==> t.Num?
    ensures !p.Num? ==> p == NA
    ensures p.Num? ==> TwoDecimalsOf(t.value * TargetFactor, p.value)
  {
    if t.Num? then Num(Round2(t.value * TargetFactor)) else NA
  }

  /** `roundedTargetProductivityHours`: `Math.round` of the unrounded target; the
      numerator of the efficiency. */
  function RoundedTarget(t: Metric): (k: Option<int>)
    ensures k.Some? <==> t.Num?
    ensures k.Some? ==> t.value * TargetFactor - 0.5 < k.value as real <= t.value * TargetFactor + 0.5
  {
    if t.Num? then Some(JsRound(t.value * TargetFactor)) else None
  }

  /** `actualEfficiency`: rounded target over turnaround, as a percentage to two
      decimals; 'Error' when the turnaround is zero, 'N/A' when either is missing. */
  function ActualEfficiency(t: Metric, k: Option<int>): (e: Metric)
    ensures e.Error? <==> t.Num? && k.Some? && t.value == 0.0
    ensures e.Num? <==> t.Num? && k.Some? && t.value != 0.0
    ensures e.Num? ==> TwoDecimalsOf(k.value as real / t.value * 100.0, e.value)
  {
    if t.Num? && k.Some? then
      if t.value != 0.0 then Num(Round2(k.value as real / t.value * 100.0)) else Error
    else NA
  }

  /** `efficiencyResult`: only a numeric efficiency is classified. */
  function Classify(e: Metric): (c: Classification)
    ensures c == MetTarget <==> e.Num? && e.value >= EfficiencyTarget
    ensures c == BelowTarget <==> e.Num? && e.value < EfficiencyTarget
    ensures c == Unclassified <==> !e.Num?
  {
    if e.Num? then (if e.value >= EfficiencyTarget then MetTarget else BelowTarget) else Unclassified
  }

  /** How the four metrics of one record must hang together: each later metric is
      available only when the earlier one is, and the classification is present
      exactly when the efficiency is a number. */
  predicate Coherent(m: Metrics)
  {
    && !m.turnaround.Error?
    && (m.turnaround.Num? ==> m.turnaround.value >= 0.0)
    && (m.target.Num? <==> m.turnaround.Num?)
    && !m.target.Error?
    && (!m.efficiency.NA? <==> m.turnaround.Num?)
    && (m.efficiency.Error? <==> m.turnaround == Num(0.0))
    && (m.result != Unclassified <==> m.efficiency.Num?)
    && (m.result == MetTarget ==> m.efficiency.value >= EfficiencyTarget)
    && (m.result == BelowTarget ==> m.efficiency.value < EfficiencyTarget)
  }

  /** `calculateItemMetrics`: the metrics of a record depend on its received and
      finished timestamps only. */
  function CalculateItemMetrics(item: Item): (m: Metrics)
    ensures Coherent(m)
    ensures m.turnaround == TurnaroundHours(item.fields.received, item.fields.finished)
  {
    var t := TurnaroundHours(item.fields.received, item.fields.finished);
    var e := ActualEfficiency(t, RoundedTarget(t));
    Metrics(t, TargetProductivity(t), e, Classify(e))
  }

  /** The whole chain, stated against the two timestamps: turnaround is numeric
      exactly when both instants exist and finish is not before receipt, and then
      target and efficiency follow from its two-decimal value. */
  lemma MetricsChain(item: Item)
    ensures var m := CalculateItemMetrics(item);
      var r := Millis(item.fields.received);
      var f := Millis(item.fields.finished);
      && (m.turnaround.Num? <==> r.Some? && f.Some? && f.value - r.value >= 0)
      && (m.turnaround.Num? ==>
            var t := Round2((f.value - r.value) as real / MillisPerHour as real);
            && m.turnaround == Num(t)
            && m.target == Num(Round2(t * 0.98))
            && m.efficiency == (if t == 0.0 then Error else Num(Round2(JsRound(t * 0.98) as real / t * 100.0))))
      && (!m.turnaround.Num? ==> m.target == NA && m.efficiency == NA && m.result == Unclassified)
  {
  }

  /** A finish before the receipt yields no separate 'invalid' value: the
      turnaround is 'N/A', like a missing timestamp, and nothing downstream is computed. */
  lemma FinishBeforeReceiveIsUnavailable(item: Item)
    requires Millis(item.fields.received).Some? && Millis(item.fields.finished).Some?
    requires Millis(item.fields.finished).value < Millis(item.fields.received).value
    ensures CalculateItemMetrics(item) == Metrics(NA, NA, NA, Unclassified)
  {
  }

  /** The target never exceeds the turnaround it is derived from. */
  lemma TargetWithinTurnaround(item: Item)
    ensures var m := CalculateItemMetrics(item);
      m.target.Num? ==> 0.0 <= m.target.value <= m.turnaround.value
  {
    var m := CalculateItemMetrics(item);
    if m.target.Num? {
      var t := m.turnaround.value;
      var p := m.target.value;
      assert t * 0.98 <= t;
      var a := (t * 100.0).Floor;
      var b := (p * 100.0).Floor;
      assert p * 100.0 <= t * 100.0 + 0.5;
      assert b <= a;
    }
  }

  /** Because the numerator is a whole number of hours, the efficiency can stray
      from the 98% target by at most half an hour's worth of the turnaround
      (plus the final two-decimal rounding). */
  lemma {:induction false} EfficiencyNearTarget(item: Item)
    ensures var m := CalculateItemMetrics(item);
      m.efficiency.Num? ==>
        var t := m.turnaround.value;
        t > 0.0 && EfficiencyTarget - 50.0 / t - 0.005 <= m.efficiency.value <= EfficiencyTarget + 50.0 / t + 0.005
  {
    var m := CalculateItemMetrics(item);
    if m.efficiency.Num? {
      var t := m.turnaround.value;
      var k := JsRound(t * TargetFactor) as real;
      RatioNearFactor(k, t);
    }
  }

  /** If `k` is within a half of `0.98 * t`, then `k / t` as a percentage is within
      `50 / t` of 98. */
  lemma RatioNearFactor(k: real, t: real)
    requires t > 0.0
    requires t * TargetFactor - 0.5 < k <= t * TargetFactor + 0.5
    ensures EfficiencyTarget - 50.0 / t <= k / t * 100.0 <= EfficiencyTarget + 50.0 / t
  {
    var e := k / t * 100.0;
    assert e * t == k * 100.0;
    var d := e - 98.0;
    assert d * t == (k - t * 0.98) * 100.0;
    assert -50.0 < d * t <= 50.0;
    var h := 50.0 / t;
    assert h * t == 50.0;
  }

  /** Worked example: received 08:00, finished 18:00 the same day. */
  lemma TenHourExample(item: Item, start: int)
    requires Millis(item.fields.received) == Some(start)
    requires Millis(item.fields.finished) == Some(start + 10 * MillisPerHour)
    ensures CalculateItemMetrics(item) == Metrics(Num(10.0), Num(9.8), Num(100.0), MetTarget)
  {
    assert Round2(10.0) == 10.0 by { assert JsRound(1000.0) == 1000; }
    assert Round2(9.8) == 9.8 by { assert JsRound(980.0) == 980; }
    assert JsRound(9.8) == 10;
    assert Round2(100.0) == 100.0 by { assert JsRound(10000.0) == 10000; }
  }

  /** Worked example: identical receipt and finish give a zero turnaround, whose
      efficiency is the 'Error' sentinel and which is not classified. */
  lemma ZeroTurnaroundExample(item: Item, at: int)
    requires Millis(item.fields.received) == Some(at) && Millis(item.fields.finished) == Some(at)
    ensures CalculateItemMetrics(item) == Metrics(Num(0.0), Num(0.0), Error, Unclassified)
  {
    assert Round2(0.0) == 0.0 by { assert JsRound(0.0) == 0; }
  }
}
