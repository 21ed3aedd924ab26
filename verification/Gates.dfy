// Regression gates on a comparison: why a run fails them, and that they fail closed.
module Gates {
  import opened Options
  import opened Multiplicity
  import Deltas

  const MIN_GATE_PAIRS := 10

  datatype Stat = MeanDelta | CiLow | CiHigh | PValue | AdjustedPValue | AdjustedCiLow | AdjustedCiHigh

  datatype Op = Le | Ge | Lt | Gt

  /** Fails the run when `<measure>`'s statistic satisfies the condition. */
  datatype Gate = Gate(measure: string, stat: Stat, op: Op, value: real)

  /** Per strategy: the answers without a usage record or a latency, and those that failed. */
  datatype CostStats = CostStats(withoutUsage: nat, withoutLatency: nat, failedAnswers: nat)

  datatype Comparison = Comparison(rows: seq<StrategyDeltas>, costStats: map<string, CostStats>,
                                   failedScores: map<string, map<string, nat>>, baseline: string,
                                   baselines: map<string, string>, closedBook: set<string>)

  // ----- What a gate reads

  const USAGE := "usage/"
  const LATENCY := "latency/"

  predicate IsCost(measure: string) {
    USAGE <= measure || LATENCY <= measure
  }

  function BaselineOf(c: Comparison, strategy: string): string {
    if strategy in c.baselines then c.baselines[strategy] else c.baseline
  }

  function StatsOf(c: Comparison, side: string): CostStats {
    if side in c.costStats then c.costStats[side] else CostStats(0, 0, 0)
  }

  /** How many of a side's answers have no value of a cost measure. */
  function Unmeasured(c: Comparison, side: string, measure: string): nat {
    if USAGE <= measure then StatsOf(c, side).withoutUsage
    else if LATENCY <= measure then StatsOf(c, side).withoutLatency
    else 0
  }

  /** How many of a side's answers a metric could not be scored on. */
  function Unscored(c: Comparison, side: string, measure: string): nat {
    if side in c.failedScores && measure in c.failedScores[side] then c.failedScores[side][measure] else 0
  }

  function Find(entries: seq<Entry>, key: string): (found: Option<AdjustedDelta>)
    ensures found.Some? ==> found.value in DeltasOf(entries)
  {
    if entries == [] then None
    else if entries[|entries| - 1].key == key then Some(entries[|entries| - 1].delta)
    else Find(entries[..|entries| - 1], key)
  }

  ghost function RowDeltas(row: StrategyDeltas): set<AdjustedDelta> {
    (set d | d in DeltasOf(row.metrics)) + (set d | d in DeltasOf(row.cost))
  }

  /** The delta a gate reads: the metric's, else the cost measure's. */
  function DeltaFor(row: StrategyDeltas, measure: string): (found: Option<AdjustedDelta>)
    ensures found.Some? ==> found.value in RowDeltas(row)
  {
    if Find(row.metrics, measure).Some? then Find(row.metrics, measure) else Find(row.cost, measure)
  }

  function Pairs(d: AdjustedDelta): nat {
    if d.stats.Paired? then d.stats.delta.pairs else d.stats.pairs
  }

  function StatOf(d: AdjustedDelta, stat: Stat): Option<real>
    reads d
  {
    match stat
    case MeanDelta => Some(if d.stats.Paired? then d.stats.delta.meanDelta else d.stats.meanDelta)
    case CiLow => Some(if d.stats.Paired? then d.stats.delta.ciLow else d.stats.ciLow)
    case CiHigh => Some(if d.stats.Paired? then d.stats.delta.ciHigh else d.stats.ciHigh)
    case PValue => if d.stats.Paired? then Some(d.stats.delta.pValue) else None
    case AdjustedPValue => if d.adjustment.Some? then Some(d.adjustment.value.pValue) else None
    case AdjustedCiLow => if d.adjustment.Some? then Some(d.adjustment.value.low) else None
    case AdjustedCiHigh => if d.adjustment.Some? then Some(d.adjustment.value.high) else None
  }

  predicate Holds(op: Op, observed: real, bound: real) {
    match op
    case Le => observed <= bound
    case Ge => observed >= bound
    case Lt => observed < bound
    case Gt => observed > bound
  }

  // ----- Passing and failing

  /** Nothing the delta rests on is missing: every answer is measured, and both sides failed alike. */
  predicate Comparable(c: Comparison, strategy: string, measure: string) {
    var base := BaselineOf(c, strategy);
    if IsCost(measure) then
      && Unmeasured(c, base, measure) == 0 && Unmeasured(c, strategy, measure) == 0
      && StatsOf(c, base).failedAnswers == StatsOf(c, strategy).failedAnswers
    else Unscored(c, base, measure) == Unscored(c, strategy, measure)
  }

  /** The gate has a delta with enough pairs and the statistic, and its condition is false. */
  ghost predicate Clears(d: AdjustedDelta, gate: Gate)
    reads d
  {
    && Pairs(d) >= MIN_GATE_PAIRS
    && StatOf(d, gate.stat).Some?
    && !Holds(gate.op, StatOf(d, gate.stat).value, gate.value)
  }

  ghost predicate Passes(c: Comparison, row: StrategyDeltas, gate: Gate)
    reads RowDeltas(row)
  {
    && Comparable(c, row.strategy, gate.measure)
    && DeltaFor(row, gate.measure).Some?
    && Clears(DeltaFor(row, gate.measure).value, gate)
  }

  /** The first thing wrong with a gate. */
  datatype Breach =
    | AnswersUnmeasured(base: nat, own: nat)
    | FailuresDiffer(base: nat, own: nat)
    | FailedScoresDiffer(base: nat, own: nat)
    | NoDelta
    | TooFewPairs(pairs: nat)
    | NoStat
    | Breached(observed: real)

  /** The breach is the case, and none of those checked before it is. */
  ghost predicate Explains(c: Comparison, row: StrategyDeltas, gate: Gate, b: Breach)
    reads RowDeltas(row)
  {
    var base, own, m := BaselineOf(c, row.strategy), row.strategy, gate.measure;
    var found := DeltaFor(row, m);
    match b
    case AnswersUnmeasured(x, y) => IsCost(m) && x == Unmeasured(c, base, m) && y == Unmeasured(c, own, m) && x + y > 0
    case FailuresDiffer(x, y) =>
      && IsCost(m) && Unmeasured(c, base, m) == Unmeasured(c, own, m) == 0
      && x == StatsOf(c, base).failedAnswers != StatsOf(c, own).failedAnswers == y
    case FailedScoresDiffer(x, y) => !IsCost(m) && x == Unscored(c, base, m) != Unscored(c, own, m) == y
    case NoDelta => Comparable(c, own, m) && found.None?
    case TooFewPairs(n) => Comparable(c, own, m) && found.Some? && n == Pairs(found.value) < MIN_GATE_PAIRS
    case NoStat =>
      && Comparable(c, own, m) && found.Some? && Pairs(found.value) >= MIN_GATE_PAIRS
      && StatOf(found.value, gate.stat).None?
    case Breached(x) =>
      && Comparable(c, own, m) && found.Some? && Pairs(found.value) >= MIN_GATE_PAIRS
      && StatOf(found.value, gate.stat) == Some(x) && Holds(gate.op, x, gate.value)
  }

  /** A gate has a breach exactly when it does not pass, and only one. */
  lemma OneBreach(c: Comparison, row: StrategyDeltas, gate: Gate, b: Breach, other: Breach)
    requires Explains(c, row, gate, b)
    ensures !Passes(c, row, gate)
    ensures Explains(c, row, gate, other) ==> other == b
  {
  }

  /** What the checks of one gate, in their order, find. */
  function BreachOf(c: Comparison, row: StrategyDeltas, gate: Gate): Option<Breach>
    reads RowDeltas(row)
  {
    var base, own, m := BaselineOf(c, row.strategy), row.strategy, gate.measure;
    if Unmeasured(c, base, m) > 0 || Unmeasured(c, own, m) > 0 then
      Some(AnswersUnmeasured(Unmeasured(c, base, m), Unmeasured(c, own, m)))
    else if IsCost(m) && StatsOf(c, base).failedAnswers != StatsOf(c, own).failedAnswers then
      Some(FailuresDiffer(StatsOf(c, base).failedAnswers, StatsOf(c, own).failedAnswers))
    else if !IsCost(m) && Unscored(c, base, m) != Unscored(c, own, m) then
      Some(FailedScoresDiffer(Unscored(c, base, m), Unscored(c, own, m)))
    else
      match DeltaFor(row, m)
      case None => Some(NoDelta)
      case Some(d) =>
        if Pairs(d) < MIN_GATE_PAIRS then Some(TooFewPairs(Pairs(d)))
        else match StatOf(d, gate.stat)
          case None => Some(NoStat)
          case Some(observed) => if Holds(gate.op, observed, gate.value) then Some(Breached(observed)) else None
  }

  /** The checks find nothing exactly when the gate passes, and what they find is so. */
  lemma ChecksAreRight(c: Comparison, row: StrategyDeltas, gate: Gate)
    ensures BreachOf(c, row, gate).None? <==> Passes(c, row, gate)
    ensures BreachOf(c, row, gate).Some? ==> Explains(c, row, gate, BreachOf(c, row, gate).value)
  {
  }

  datatype Line = Line(strategy: string, gate: Gate, breach: Breach)

  /** The line on a breach, if there is one. */
  function LineOf(strategy: string, gate: Gate, breach: Option<Breach>): seq<Line> {
    if breach.Some? then [Line(strategy, gate, breach.value)] else []
  }

  /** The lines on the first `n` gates of a row. */
  ghost function RowLines(c: Comparison, row: StrategyDeltas, gates: seq<Gate>, n: nat): seq<Line>
    requires n <= |gates|
    reads RowDeltas(row)
  {
    if n == 0 then []
    else
      RowLines(c, row, gates, n - 1) + LineOf(row.strategy, gates[n - 1], BreachOf(c, row, gates[n - 1]))
  }

  /** The lines on the first `n` rows; a closed-book arm is not gated. */
  ghost function AllLines(c: Comparison, gates: seq<Gate>, n: nat): seq<Line>
    requires n <= |c.rows|
    reads set i, d | 0 <= i < n && d in RowDeltas(c.rows[i]) :: d
  {
    if n == 0 then []
    else
      AllLines(c, gates, n - 1)
      + if c.rows[n - 1].strategy in c.closedBook then [] else RowLines(c, c.rows[n - 1], gates, |gates|)
  }

  method GateBreaches(c: Comparison, gates: seq<Gate>) returns (lines: seq<Line>)
    ensures lines == AllLines(c, gates, |c.rows|)
  {
    lines := [];
    for i := 0 to |c.rows|
      invariant lines == AllLines(c, gates, i)
    {
      var row, found := c.rows[i], [];
      if row.strategy !in c.closedBook {
        for n := 0 to |gates|
          invariant found == RowLines(c, row, gates, n)
        {
          found := found + LineOf(row.strategy, gates[n], BreachOf(c, row, gates[n]));
        }
      }
      lines := lines + found;
    }
  }

  ghost predicate RowPasses(c: Comparison, row: StrategyDeltas, gates: seq<Gate>, n: nat)
    requires n <= |gates|
    reads RowDeltas(row)
  {
    forall g :: 0 <= g < n ==> Passes(c, row, gates[g])
  }

  /** Every gated strategy of the first `n` rows passes every gate. */
  ghost predicate AllPass(c: Comparison, gates: seq<Gate>, n: nat)
    requires n <= |c.rows|
    reads set i, d | 0 <= i < n && d in RowDeltas(c.rows[i]) :: d
  {
    forall i :: 0 <= i < n ==> c.rows[i].strategy in c.closedBook || RowPasses(c, c.rows[i], gates, |gates|)
  }

  lemma RowPassesNext(c: Comparison, row: StrategyDeltas, gates: seq<Gate>, n: nat)
    requires 0 < n <= |gates|
    ensures RowPasses(c, row, gates, n) <==> RowPasses(c, row, gates, n - 1) && BreachOf(c, row, gates[n - 1]).None?
  {
    ChecksAreRight(c, row, gates[n - 1]);
  }

  lemma {:induction false} RowIsClear(c: Comparison, row: StrategyDeltas, gates: seq<Gate>, n: nat)
    requires n <= |gates|
    ensures RowLines(c, row, gates, n) == [] <==> RowPasses(c, row, gates, n)
  {
    if n > 0 {
      RowIsClear(c, row, gates, n - 1);
      RowPassesNext(c, row, gates, n);
    }
  }

  /** There is no breach exactly when every gated strategy has, for every gate, all that passing needs. */
  lemma {:induction false} NoBreachMeansAllPass(c: Comparison, gates: seq<Gate>, n: nat)
    requires n <= |c.rows|
    ensures AllLines(c, gates, n) == [] <==> AllPass(c, gates, n)
  {
    if n > 0 {
      NoBreachMeansAllPass(c, gates, n - 1);
      RowIsClear(c, c.rows[n - 1], gates, |gates|);
    }
  }

  // ----- Adjusting, then gating

  /** The delta is a test of some family, and the statistic is the one adjusted over that family. */
  ghost predicate AdjustedIn(s: Summary, alpha: real, bootstrap: Deltas.Bootstrap, d: AdjustedDelta, value: real) {
    || AdjustedAmong(s.first, Primary, alpha, bootstrap, d, value)
    || AdjustedAmong(s.second, Secondary, alpha, bootstrap, d, value)
    || AdjustedAmong(s.cost, Cost, alpha, bootstrap, d, value)
  }

  ghost predicate AdjustedAmong(members: seq<AdjustedDelta>, f: Family, alpha: real, bootstrap: Deltas.Bootstrap,
                                d: AdjustedDelta, value: real) {
    AllEligible(members)
    && exists i :: 0 <= i < |members| && members[i] == d
                   && AdjustmentOf(members, f, alpha, bootstrap, i).pValue == value
  }

  /** In an adjusted comparison a delta with an adjusted p-value is a test of a family. */
  lemma AdjustedFromFamily(s: Summary, alpha: real, bootstrap: Deltas.Bootstrap, d: AdjustedDelta)
    requires AllAdjusted(s, alpha, bootstrap) && d.adjustment.Some? && !InNone(s, d)
    ensures AdjustedIn(s, alpha, bootstrap, d, d.adjustment.value.pValue)
  {
    if d in s.first {
      var i := SameAdjustment(s.first, d);
    } else if d in s.second {
      var i := SameAdjustment(s.second, d);
    } else {
      var i := SameAdjustment(s.cost, d);
    }
  }

  lemma {:induction false} RowWithinRows(rows: seq<StrategyDeltas>, i: nat, d: AdjustedDelta)
    requires i < |rows| && d in RowDeltas(rows[i])
    ensures d in DeltaSet(rows)
  {
    if i < |rows| - 1 {
      RowWithinRows(rows[..|rows| - 1], i, d);
    }
  }

  /** The gate reads a p-value adjusted over a family its delta is in, and that does not meet the condition. */
  ghost predicate ClearsItsFamily(row: StrategyDeltas, gate: Gate, s: Summary, alpha: real, bootstrap: Deltas.Bootstrap)
    reads RowDeltas(row)
  {
    var found := DeltaFor(row, gate.measure);
    && found.Some? && found.value.adjustment.Some?
    && AdjustedIn(s, alpha, bootstrap, found.value, found.value.adjustment.value.pValue)
    && !Holds(gate.op, found.value.adjustment.value.pValue, gate.value)
  }

  lemma PassingClearsFamily(c: Comparison, gates: seq<Gate>, s: Summary, alpha: real, bootstrap: Deltas.Bootstrap,
                            i: nat, g: nat)
    requires AllLines(c, gates, |c.rows|) == [] && AllAdjusted(s, alpha, bootstrap)
    requires forall d :: d in DeltaSet(c.rows) && InNone(s, d) ==> d.adjustment.None?
    requires i < |c.rows| && g < |gates| && c.rows[i].strategy !in c.closedBook && gates[g].stat == AdjustedPValue
    ensures ClearsItsFamily(c.rows[i], gates[g], s, alpha, bootstrap)
  {
    NoBreachMeansAllPass(c, gates, |c.rows|);
    assert RowPasses(c, c.rows[i], gates, |gates|);
    var d := DeltaFor(c.rows[i], gates[g].measure).value;
    RowWithinRows(c.rows, i, d);
    AdjustedFromFamily(s, alpha, bootstrap, d);
  }

  /**
   * Adjusting a fresh comparison over all but the closed-book arms and gating it fails closed: with
   * no breach, every gate on an adjusted p-value read one that Holm's adjustment gave the delta
   * within its family. A delta outside the families breaches.
   */
  method AdjustThenGate(c: Comparison, gates: seq<Gate>, declared: Option<string>, alpha: real,
                        bootstrap: Deltas.Bootstrap,
                        ghost all: set<AdjustedDelta>) returns (s: Summary, lines: seq<Line>)
    requires Unshared(c.rows) && all == DeltaSet(c.rows)
    requires forall d :: d in all ==> d.adjustment.None?
    modifies all
    ensures lines == AllLines(c, gates, |c.rows|) && AreFamilies(c.rows, c.closedBook, s)
    ensures AllAdjusted(s, alpha, bootstrap)
    ensures lines == [] ==>
              forall i, g :: 0 <= i < |c.rows| && 0 <= g < |gates| && c.rows[i].strategy !in c.closedBook
                             && gates[g].stat == AdjustedPValue ==>
                ClearsItsFamily(c.rows[i], gates[g], s, alpha, bootstrap)
  {
    s := Adjust(c.rows, c.closedBook, declared, alpha, bootstrap, all);
    lines := GateBreaches(c, gates);
    if lines == [] {
      forall i, g | 0 <= i < |c.rows| && 0 <= g < |gates| && c.rows[i].strategy !in c.closedBook
                    && gates[g].stat == AdjustedPValue
        ensures ClearsItsFamily(c.rows[i], gates[g], s, alpha, bootstrap)
      {
        PassingClearsFamily(c, gates, s, alpha, bootstrap, i, g);
      }
    }
  }
}
