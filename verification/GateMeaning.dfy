// What a gate's verdict says of the values behind a delta: which end of which interval, which
// p-value, at which confidence, it compared, and with how many pairs.
module GateMeaning {
  import opened Gates
  import opened Multiplicity
  import opened Options
  import Deltas
  import Holm

  /** The observed value does not meet the gate's condition. */
  ghost predicate Spares(gate: Gate, observed: real) {
    match gate.op
    case Le => observed > gate.value
    case Ge => observed < gate.value
    case Lt => observed >= gate.value
    case Gt => observed <= gate.value
  }

  // ----- What makes two sides comparable

  ghost function CountOf(counts: map<string, nat>, key: string): nat {
    if key in counts then counts[key] else 0
  }

  ghost function ScoresOf(c: Comparison, side: string): map<string, nat> {
    if side in c.failedScores then c.failedScores[side] else map[]
  }

  /** No answer of the side is without a value of a cost measure, as far as it was counted. */
  ghost predicate FullyMeasured(c: Comparison, side: string, measure: string) {
    side in c.costStats ==>
      && ("usage/" <= measure ==> c.costStats[side].withoutUsage == 0)
      && ("latency/" <= measure ==> c.costStats[side].withoutLatency == 0)
  }

  ghost function FailedOf(c: Comparison, side: string): nat {
    if side in c.costStats then c.costStats[side].failedAnswers else 0
  }

  /**
   * The sides are comparable on a cost measure exactly when no answer of either lacks it and as many
   * failed, and on a metric exactly when it could not be scored equally often; what was not counted is 0.
   */
  lemma ComparableIff(c: Comparison, strategy: string, measure: string)
    ensures var base := if strategy in c.baselines then c.baselines[strategy] else c.baseline;
      Comparable(c, strategy, measure)
      <==> if "usage/" <= measure || "latency/" <= measure then
             && FullyMeasured(c, base, measure) && FullyMeasured(c, strategy, measure)
             && FailedOf(c, base) == FailedOf(c, strategy)
           else CountOf(ScoresOf(c, base), measure) == CountOf(ScoresOf(c, strategy), measure)
  {
    assert "usage/" <= measure ==> measure[0] == 'u';
    assert "latency/" <= measure ==> measure[0] == 'l';
  }

  // ----- What a gate reads

  /** The gate finds, beside comparable sides, a delta of its measure with these paired values. */
  ghost predicate ReadsPaired(c: Comparison, row: StrategyDeltas, gate: Gate, e: AdjustedDelta, d: Deltas.Delta) {
    && Comparable(c, row.strategy, gate.measure)
    && DeltaFor(row, gate.measure) == Some(e) && e.stats == Paired(d)
  }

  /** With fewer than ten pairs every gate on the delta has a line, whatever its statistic. */
  lemma FewPairsBreach(c: Comparison, row: StrategyDeltas, gate: Gate, e: AdjustedDelta, d: Deltas.Delta)
    requires ReadsPaired(c, row, gate, e, d)
    ensures d.pairs <= 9 <==> BreachOf(c, row, gate) == Some(TooFewPairs(d.pairs))
  {
  }

  /** The verdict rests on the one value the gate reads. */
  lemma VerdictOn(c: Comparison, row: StrategyDeltas, gate: Gate, e: AdjustedDelta, d: Deltas.Delta, x: real)
    requires ReadsPaired(c, row, gate, e, d) && d.pairs >= 10 && StatOf(e, gate.stat) == Some(x)
    ensures BreachOf(c, row, gate).None? <==> Spares(gate, x)
  {
    ChecksAreRight(c, row, gate);
  }

  /** The mean of the differences, over the queries both sides scored. */
  ghost predicate IsMeanOf(x: real, base: map<string, real>, other: map<string, real>) {
    var n := |base.Keys * other.Keys|;
    n > 0 && x == Deltas.Total(Deltas.Differences(base, other)) / n as real
  }

  lemma MeanIsOverShared(d: Deltas.Delta, base: map<string, real>, other: map<string, real>)
    requires Deltas.IsDelta(d, base, other)
    ensures IsMeanOf(d.meanDelta, base, other)
  {
    var m := Deltas.Differences(base, other);
    assert m.Keys == base.Keys * other.Keys;
    assert |m.Keys| == |m|;
    var q :| q in m;
    assert q in m.Keys;
  }

  /**
   * A gate on an unadjusted statistic of a tested delta of ten pairs or more has no line exactly when
   * the condition is not met by: the mean of the differences, the lower or the upper end of the
   * bootstrap interval of the listed values, or their sign-flip p-value.
   */
  lemma GateReadsValues(c: Comparison, row: StrategyDeltas, gate: Gate, e: AdjustedDelta, d: Deltas.Delta,
                        base: map<string, real>, other: map<string, real>, settings: Deltas.Settings)
    requires ReadsPaired(c, row, gate, e, d) && d.pairs >= 10
    requires Deltas.DrawsEnough(settings) && Deltas.IsDelta(d, base, other) && Deltas.IsTested(d, settings)
    ensures var clear := BreachOf(c, row, gate).None?; var interval := settings.bootstrap(d.values, settings.confidence);
      && (gate.stat == MeanDelta ==> forall x :: IsMeanOf(x, base, other) ==> (clear <==> Spares(gate, x)))
      && (gate.stat == CiLow ==> (clear <==> Spares(gate, interval.0)))
      && (gate.stat == CiHigh ==> (clear <==> Spares(gate, interval.1)))
      && (gate.stat == PValue ==> (clear <==> Spares(gate, Deltas.PValueOf(d.values, settings))))
  {
    match gate.stat
    case MeanDelta =>
      MeanIsOverShared(d, base, other);
      VerdictOn(c, row, gate, e, d, d.meanDelta);
    case CiLow => VerdictOn(c, row, gate, e, d, d.ciLow);
    case CiHigh => VerdictOn(c, row, gate, e, d, d.ciHigh);
    case PValue => VerdictOn(c, row, gate, e, d, d.pValue);
    case _ =>
  }

  lemma AdjustedValues(members: seq<AdjustedDelta>, f: Family, alpha: real, bootstrap: Deltas.Bootstrap, i: nat,
                       confidence: real)
    requires IsAdjusted(members, f, alpha, bootstrap) && i < |members|
    requires confidence == 1.0 - alpha / |members| as real
    ensures members[i].adjustment.Some?
    ensures var a := members[i].adjustment.value;
      a.pValue == Holm.Adjusted(PValues(members))[i]
      && (a.low, a.high) == bootstrap(members[i].stats.delta.values, confidence)
  {
    assert members[i].adjustment == Some(AdjustmentOf(members, f, alpha, bootstrap, i));
    assert Level(alpha, |members|) == confidence;
  }

  /** A gate on the difference of two ratios reads its own mean and interval; it has no p-value to read. */
  lemma GateReadsRatio(c: Comparison, row: StrategyDeltas, gate: Gate, e: AdjustedDelta, pairs: nat, mean: real,
                       low: real, high: real)
    requires Comparable(c, row.strategy, gate.measure)
    requires DeltaFor(row, gate.measure) == Some(e) && e.stats == Ratio(pairs, mean, low, high) && pairs >= 10
    ensures var clear := BreachOf(c, row, gate).None?;
      && (gate.stat == MeanDelta ==> (clear <==> Spares(gate, mean)))
      && (gate.stat == CiLow ==> (clear <==> Spares(gate, low)))
      && (gate.stat == CiHigh ==> (clear <==> Spares(gate, high)))
      && (gate.stat == PValue ==> BreachOf(c, row, gate) == Some(NoStat))
  {
    ChecksAreRight(c, row, gate);
  }

  /**
   * A gate on an adjusted statistic of the i-th test of a family of m has no line exactly when the
   * condition is not met by: Holm's value among the family's p-values, or the lower or the upper end of
   * the test's bootstrap interval at confidence 1 - alpha / m.
   */
  lemma GateReadsFamily(c: Comparison, row: StrategyDeltas, gate: Gate, members: seq<AdjustedDelta>, f: Family,
                        alpha: real, bootstrap: Deltas.Bootstrap, i: nat, d: Deltas.Delta, confidence: real)
    requires IsAdjusted(members, f, alpha, bootstrap) && i < |members|
    requires confidence == 1.0 - alpha / |members| as real
    requires ReadsPaired(c, row, gate, members[i], d) && d.pairs >= 10
    ensures var clear := BreachOf(c, row, gate).None?; var interval := bootstrap(d.values, confidence);
      && (gate.stat == AdjustedPValue ==> (clear <==> Spares(gate, Holm.Adjusted(PValues(members))[i])))
      && (gate.stat == AdjustedCiLow ==> (clear <==> Spares(gate, interval.0)))
      && (gate.stat == AdjustedCiHigh ==> (clear <==> Spares(gate, interval.1)))
  {
    AdjustedValues(members, f, alpha, bootstrap, i, confidence);
    var a := members[i].adjustment.value;
    match gate.stat
    case AdjustedPValue => VerdictOn(c, row, gate, members[i], d, a.pValue);
    case AdjustedCiLow => VerdictOn(c, row, gate, members[i], d, a.low);
    case AdjustedCiHigh => VerdictOn(c, row, gate, members[i], d, a.high);
    case _ =>
  }

  /** A gate on an adjusted statistic of a delta that no adjustment reached has a line. */
  lemma UnadjustedBreaches(c: Comparison, row: StrategyDeltas, gate: Gate, e: AdjustedDelta, d: Deltas.Delta)
    requires ReadsPaired(c, row, gate, e, d) && d.pairs >= 10 && e.adjustment.None?
    requires gate.stat == AdjustedPValue || gate.stat == AdjustedCiLow || gate.stat == AdjustedCiHigh
    ensures BreachOf(c, row, gate) == Some(NoStat)
  {
  }
}
