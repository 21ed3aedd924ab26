// The runs behind the promise on gates: when the runs' own values of a measure are exchanged, the
// comparison they give tests the measure as that promise asks.
module RunsToGate {
  import opened Comparison
  import opened CostGates
  import opened Costs
  import opened Deltas
  import opened Exchange
  import opened GateLevel
  import opened Listings
  import opened Options
  import opened PairedComparison
  import opened RowViews
  import FamilyWise
  import Gates
  import M = Multiplicity
  import SignFlip

  // ----- A found delta is in its family

  lemma {:induction false} MetricIsMember(entries: seq<M.Entry>, key: string, primary: Option<string>)
    requires Gates.Find(entries, key).Some? && M.Eligible(Gates.Find(entries, key).value)
    ensures Gates.Find(entries, key).value in M.MetricMembers(entries, primary, M.FamilyOf(primary, key))
  {
    var n := |entries| - 1;
    if entries[n].key != key {
      MetricIsMember(entries[..n], key, primary);
    }
  }

  lemma {:induction false} CostIsMember(entries: seq<M.Entry>, key: string)
    requires Gates.Find(entries, key).Some? && M.Eligible(Gates.Find(entries, key).value)
    ensures Gates.Find(entries, key).value in M.CostMembers(entries)
  {
    var n := |entries| - 1;
    if entries[n].key != key {
      CostIsMember(entries[..n], key);
    }
  }

  lemma {:induction false} RowMemberIsMember(rows: seq<M.StrategyDeltas>, exclude: set<string>, primary: Option<string>,
                                             f: M.Family, i: nat, d: M.AdjustedDelta)
    requires i < |rows| && rows[i].strategy !in exclude && d in M.RowMembers(rows[i], primary, f)
    ensures d in M.Members(rows, exclude, primary, f)
  {
    var before, last := rows[..|rows| - 1], rows[|rows| - 1];
    if i < |before| {
      assert before[i] == rows[i];
      RowMemberIsMember(before, exclude, primary, f, i, d);
    } else {
      assert rows[i] == last;
    }
    assert M.Members(rows, exclude, primary, f)
      == M.Members(before, exclude, primary, f) + if last.strategy in exclude then [] else M.RowMembers(last, primary, f);
  }

  /** The family that tests a measure: a metric's by its text, or the cost measures'. */
  ghost function FamilyFor(s: M.Summary, key: Key): M.Family {
    if key in COST_MEASURES then M.Cost else M.FamilyOf(s.choice.primary, Text(key))
  }

  lemma FoundIsMember(o: Outcome, i: nat, key: Key)
    requires M.AreFamilies(o.c.rows, o.c.closedBook, o.s) && i < |o.c.rows| && o.c.rows[i].strategy !in o.c.closedBook
    requires Gates.DeltaFor(o.c.rows[i], Text(key)).Some? && M.Eligible(Gates.DeltaFor(o.c.rows[i], Text(key)).value)
    requires Gates.Find(o.c.rows[i].metrics, Text(key)).Some? <==> key !in COST_MEASURES
    ensures Gates.DeltaFor(o.c.rows[i], Text(key)).value in FamilyMembers(o.s, FamilyFor(o.s, key))
  {
    var row, d, f := o.c.rows[i], Gates.DeltaFor(o.c.rows[i], Text(key)).value, FamilyFor(o.s, key);
    if key in COST_MEASURES {
      CostIsMember(row.cost, Text(key));
    } else {
      MetricIsMember(row.metrics, Text(key), o.s.choice.primary);
    }
    RowMemberIsMember(o.c.rows, o.c.closedBook, o.s.choice.primary, f, i, d);
  }

  // ----- The runs' values, exchanged

  /** The runs' table of a key on one side: the metric's or the cost measure's. */
  ghost function TableOf(means: map<Strategy, Table<real>>, costs: map<Strategy, Table<real>>,
                         key: Key): map<Strategy, Table<real>> {
    if key in COST_MEASURES then costs else means
  }

  /** In these runs the two sides' values of the measure are the observed ones, exchanged by the k-th signs. */
  ghost predicate AreExchanged(runs: map<Strategy, seq<Run>>, prices: Prices, baseline: Strategy, s: Strategy, key: Key,
                               h: Hypothesis, design: Design, k: nat)
    requires baseline in runs && s in runs
  {
    var signs := SignFlip.Pattern(k, |design.order|);
    forall means, costs :: AreMetricMeans(means, runs) && AreCostMeans(costs, runs, prices) ==>
      && ColumnAt(TableOf(means, costs, key)[baseline], key) == Exchanged(h.base, h.other, design.order, signs)
      && ColumnAt(TableOf(means, costs, key)[s], key) == Exchanged(h.other, h.base, design.order, signs)
  }

  /** Two exchanged columns that share a query have a delta, over the exchanged values. */
  lemma ExchangedHasDelta(deltas: map<Key, Delta>, base: Table<real>, other: Table<real>, skipped: set<Key>, key: Key,
                          h: Hypothesis, design: Design, k: nat)
    requires IsDesign(design) && AreDeltas(deltas, base, other, skipped) && AreTested(deltas, design.settings)
             && key !in skipped
    requires var signs := SignFlip.Pattern(k, |design.order|);
      && ColumnAt(base, key) == Exchanged(h.base, h.other, design.order, signs)
      && ColumnAt(other, key) == Exchanged(h.other, h.base, design.order, signs)
    requires h.base.Keys * h.other.Keys != {}
    ensures key in deltas && IsExchangedDelta(deltas[key], h, design, k)
  {
    assert ColumnAt(base, key).Keys * ColumnAt(other, key).Keys == h.base.Keys * h.other.Keys;
    assert ColumnAt(base, key) != map[];
  }

  /**
   * The comparison of runs whose values of a measure are exchanged, adjusted over its families, tests
   * the measure as the promise on gates asks.
   */
  lemma RunsAreTested(o: Outcome, runs: map<Strategy, seq<Run>>, order: seq<Strategy>, prices: Prices,
                      unmetered: set<Strategy>, metricDeltas: map<Strategy, map<Key, Delta>>,
                      costDeltas: map<Strategy, map<Key, Delta>>, i: nat, key: Key, h: Hypothesis, design: Design, k: nat)
    requires IsDesign(design) && AreStrategies(order, runs)
    requires AreDeltasOf(metricDeltas, costDeltas, runs, order, prices, unmetered, design.settings)
    requires Reports(o.c, runs, order, prices, metricDeltas, costDeltas) && i < |o.c.rows|
    requires M.AreFamilies(o.c.rows, o.c.closedBook, o.s) && o.c.rows[i].strategy !in o.c.closedBook
    requires (IsMetric(key) || key in COST_MEASURES) && key !in Skipped(unmetered, order[0], order[i + 1])
    requires h.row == i && h.measure == Text(key)
    requires h.base.Keys * h.other.Keys != {} && h.base.Keys * h.other.Keys <= Elements(design.order)
    requires order[0] in runs && order[i + 1] in runs
    requires AreExchanged(runs, prices, order[0], order[i + 1], key, h, design, k)
    ensures IsTestOf(o, FamilyFor(o.s, key), h, design, k)
  {
    var s, row := order[i + 1], o.c.rows[i];
    assert s == order[1..][i];
    var means, costs := TablesBehind(runs, order, prices, unmetered, design.settings, metricDeltas, costDeltas, s);
    var tables := TableOf(means, costs, key);
    var deltas := if key in COST_MEASURES then costDeltas[s] else metricDeltas[s];
    ExchangedHasDelta(deltas, tables[order[0]], tables[s], Skipped(unmetered, order[0], s), key, h, design, k);
    DeltaKeys(runs, order, prices, unmetered, design.settings, metricDeltas, costDeltas, s);
    if key in COST_MEASURES && IsMetric(key) {
      MetricIsNoCost(key);
    }
    FoundUnder(o.c, runs, order, prices, unmetered, design.settings, metricDeltas, costDeltas, i, key);
    FoundIsMember(o, i, key);
  }

  /** A measure's delta is found among the metrics exactly when it is one. */
  lemma FoundUnder(c: Gates.Comparison, runs: map<Strategy, seq<Run>>, order: seq<Strategy>, prices: Prices,
                   unmetered: set<Strategy>, settings: Settings, metricDeltas: map<Strategy, map<Key, Delta>>,
                   costDeltas: map<Strategy, map<Key, Delta>>, i: nat, key: Key)
    requires AreStrategies(order, runs) && DrawsEnough(settings)
    requires AreDeltasOf(metricDeltas, costDeltas, runs, order, prices, unmetered, settings)
    requires Reports(c, runs, order, prices, metricDeltas, costDeltas) && i < |c.rows|
    requires order[i + 1] in metricDeltas && order[i + 1] in costDeltas
    requires key in if key in COST_MEASURES then costDeltas[order[i + 1]] else metricDeltas[order[i + 1]]
    ensures var found := Gates.DeltaFor(c.rows[i], Text(key));
      && found.Some?
      && found.value.stats == M.Paired((if key in COST_MEASURES then costDeltas[order[i + 1]] else metricDeltas[order[i + 1]])[key])
    ensures Gates.Find(c.rows[i].metrics, Text(key)).Some? <==> key !in COST_MEASURES
  {
    var s := order[i + 1];
    assert s == order[1..][i] && IsRow(c.rows[i], s, metricDeltas, costDeltas);
    DeltaKeys(runs, order, prices, unmetered, settings, metricDeltas, costDeltas, s);
    if key in metricDeltas[s] {
      MetricIsNoCost(key);
    }
    FamiliesHaveNoSlash(key);
    KeysAreSlashFree(metricDeltas[s]);
    KeysAreSlashFree(costDeltas[s]);
    FindsDelta(c.rows[i].metrics, metricDeltas[s], key);
    FindsDelta(c.rows[i].cost, costDeltas[s], key);
  }

  // ----- The promise, from the runs

  /** Runs, the deltas their comparison states, and the comparison adjusted over its families. */
  datatype Study = Study(runs: map<Strategy, seq<Run>>, metricDeltas: map<Strategy, map<Key, Delta>>,
                         costDeltas: map<Strategy, map<Key, Delta>>, outcome: Outcome)

  /** What every study of a plan shares. */
  datatype Plan = Plan(order: seq<Strategy>, prices: Prices, unmetered: set<Strategy>, design: Design)

  ghost predicate IsStudy(st: Study, plan: Plan) {
    && IsDesign(plan.design) && AreStrategies(plan.order, st.runs)
    && AreDeltasOf(st.metricDeltas, st.costDeltas, st.runs, plan.order, plan.prices, plan.unmetered, plan.design.settings)
    && Reports(st.outcome.c, st.runs, plan.order, plan.prices, st.metricDeltas, st.costDeltas)
    && M.AreFamilies(st.outcome.c.rows, st.outcome.c.closedBook, st.outcome.s) && M.Unshared(st.outcome.c.rows)
  }

  /** In the k-th study the measure has no difference but the k-th exchange of its observed values. */
  ghost predicate IsNull(st: Study, plan: Plan, h: Hypothesis, key: Key, k: nat) {
    && IsStudy(st, plan) && h.row < |st.outcome.c.rows| && h.measure == Text(key) && h.row + 1 < |plan.order|
    && st.outcome.c.rows[h.row].strategy !in st.outcome.c.closedBook
    && (IsMetric(key) || key in COST_MEASURES) && key !in Skipped(plan.unmetered, plan.order[0], plan.order[h.row + 1])
    && h.base.Keys * h.other.Keys != {} && h.base.Keys * h.other.Keys <= Elements(plan.design.order)
    && plan.order[0] in st.runs && plan.order[h.row + 1] in st.runs
    && AreExchanged(st.runs, plan.prices, plan.order[0], plan.order[h.row + 1], key, h, plan.design, k)
  }

  lemma NullIsTested(st: Study, plan: Plan, h: Hypothesis, key: Key, k: nat)
    requires IsNull(st, plan, h, key, k)
    ensures IsTestOf(st.outcome, FamilyFor(st.outcome.s, key), h, plan.design, k)
  {
    RunsAreTested(st.outcome, st.runs, plan.order, plan.prices, plan.unmetered, st.metricDeltas, st.costDeltas, h.row, key,
                  h, plan.design, k);
  }

  ghost function OutcomesOf(studies: seq<Study>): (outcomes: seq<Outcome>)
    ensures |outcomes| == |studies| && forall w :: 0 <= w < |studies| ==> outcomes[w] == studies[w].outcome
  {
    if studies == [] then [] else OutcomesOf(studies[..|studies| - 1]) + [studies[|studies| - 1].outcome]
  }

  /** The studies are the equally likely outcomes of one plan, in which family f tests every null. */
  ghost predicate AreStudies(studies: seq<Study>, plan: Plan, f: M.Family, nulls: seq<Hypothesis>, keys: seq<Key>) {
    && IsDesign(plan.design) && |studies| == SignFlip.Pow2(|plan.design.order|) && |keys| == |nulls|
    && (forall w :: 0 <= w < |studies| ==> IsStudy(studies[w], plan))
    && (forall w, l :: 0 <= w < |studies| && 0 <= l < |nulls| ==>
          IsNull(studies[w], plan, nulls[l], keys[l], w) && FamilyFor(studies[w].outcome.s, keys[l]) == f)
  }

  lemma StudiesAreOutcomes(studies: seq<Study>, plan: Plan, f: M.Family, nulls: seq<Hypothesis>, keys: seq<Key>)
    requires AreStudies(studies, plan, f, nulls, keys)
    ensures AreOutcomes(OutcomesOf(studies), f, nulls, plan.design)
  {
    var outcomes := OutcomesOf(studies);
    forall w | 0 <= w < |outcomes|
      ensures M.Unshared(outcomes[w].c.rows) && AreTests(outcomes[w], f, nulls, plan.design, w)
    {
      assert IsStudy(studies[w], plan);
      forall l | 0 <= l < |nulls|
        ensures IsTestOf(outcomes[w], f, nulls[l], plan.design, w)
      {
        NullIsTested(studies[w], plan, nulls[l], keys[l], w);
      }
    }
    forall w, l | 0 <= w < |outcomes| && 0 <= l < |nulls|
      ensures nulls[l].row < |outcomes[w].c.rows|
    {
      assert IsNull(studies[w], plan, nulls[l], keys[l], w);
    }
  }

  /**
   * From the runs to the gates: over the equally likely outcomes of exchanging the two sides' values of
   * some measures without a difference, comparing the runs, adjusting the comparison and gating it, a
   * gate on an adjusted p-value of at most alpha breaches on one of those measures in at most a share alpha.
   */
  lemma RunsAreRarelyBlamed(studies: seq<Study>, outcomes: seq<Outcome>, plan: Plan, f: M.Family, nulls: seq<Hypothesis>,
                            keys: seq<Key>, level: real, bootstrap: Bootstrap, gates: seq<Gates.Gate>, alpha: real,
                            blamed: seq<bool>)
    requires AreStudies(studies, plan, f, nulls, keys) && outcomes == OutcomesOf(studies)
    requires Differ(nulls) && nulls != [] && alpha >= 0.0 && |blamed| == |outcomes|
    requires forall w :: 0 <= w < |outcomes| ==> M.AllAdjusted(outcomes[w].s, level, bootstrap)
    requires forall w, l :: 0 <= w < |outcomes| && 0 <= l < |nulls| ==> nulls[l].row < |outcomes[w].c.rows|
    requires forall w :: 0 <= w < |blamed| && blamed[w] ==> Blames(outcomes[w], nulls, gates, alpha)
    ensures |blamed| > 0 && FamilyWise.Share(CountTrue(blamed), |blamed|) <= alpha
  {
    StudiesAreOutcomes(studies, plan, f, nulls, keys);
    GateRarelyBlames(outcomes, f, nulls, plan.design, level, bootstrap, gates, alpha, blamed);
  }
}
