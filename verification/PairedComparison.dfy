// A whole paired comparison, from the runs of the strategies to the deltas and counters that the
// adjustment and the gates read, and what a gate reads of the runs.
module PairedComparison {
  import opened Options
  import opened Comparison
  import opened Costs
  import opened CostGates
  import opened Deltas
  import opened Listings
  import opened RowViews
  import Gates
  import Multiplicity

  // ----- Deltas as entries

  ghost predicate IsEntry(e: Multiplicity.Entry, key: Key, d: Delta) {
    e.key == Text(key) && e.delta.stats == Multiplicity.Paired(d)
  }

  ghost predicate IsSomeEntry(e: Multiplicity.Entry, deltas: map<Key, Delta>) {
    exists k :: k in deltas && IsEntry(e, k, deltas[k])
  }

  ghost predicate HasEntry(entries: seq<Multiplicity.Entry>, key: Key, d: Delta) {
    exists i :: 0 <= i < |entries| && IsEntry(entries[i], key, d)
  }

  /** The entries are the deltas, each under its key's text. */
  ghost predicate Carries(entries: seq<Multiplicity.Entry>, deltas: map<Key, Delta>) {
    && (forall i :: 0 <= i < |entries| ==> IsSomeEntry(entries[i], deltas))
    && (forall k :: k in deltas ==> HasEntry(entries, k, deltas[k]))
  }

  /** Each of the entries' deltas is an object of its own. */
  ghost predicate Apart(entries: seq<Multiplicity.Entry>) {
    forall i, j :: 0 <= i < j < |entries| ==> entries[i].delta != entries[j].delta
  }

  method EntriesOf(deltas: map<Key, Delta>) returns (entries: seq<Multiplicity.Entry>)
    ensures Carries(entries, deltas) && Apart(entries)
    ensures forall i :: 0 <= i < |entries| ==> fresh(entries[i].delta) && entries[i].delta.adjustment == None
  {
    entries := [];
    var left := deltas.Keys;
    while left != {}
      invariant left <= deltas.Keys && Apart(entries)
      invariant forall i :: 0 <= i < |entries| ==> fresh(entries[i].delta) && entries[i].delta.adjustment == None
      invariant forall i :: 0 <= i < |entries| ==> IsSomeEntry(entries[i], deltas)
      invariant forall k :: k in deltas && k !in left ==> HasEntry(entries, k, deltas[k])
    {
      var key :| key in left;
      var d := new Multiplicity.AdjustedDelta(Multiplicity.Paired(deltas[key]));
      ghost var before := entries;
      entries := entries + [Multiplicity.Entry(Text(key), d)];
      assert IsEntry(entries[|before|], key, deltas[key]);
      forall k | k in deltas && k !in left - {key}
        ensures HasEntry(entries, k, deltas[k])
      {
        if k != key {
          var i :| 0 <= i < |before| && IsEntry(before[i], k, deltas[k]);
          assert IsEntry(entries[i], k, deltas[k]);
        }
      }
      left := left - {key};
    }
  }

  // ----- What a gate finds

  /** No family of the deltas' keys holds a slash, so their texts are apart. */
  ghost predicate SlashFree(deltas: map<Key, Delta>) {
    forall k :: k in deltas ==> '/' !in k.family
  }

  lemma EntryHasKey(e: Multiplicity.Entry, deltas: map<Key, Delta>, key: Key)
    requires SlashFree(deltas) && '/' !in key.family && IsSomeEntry(e, deltas) && e.key == Text(key)
    ensures key in deltas && e.delta.stats == Multiplicity.Paired(deltas[key])
  {
    var k :| k in deltas && IsEntry(e, k, deltas[k]);
    UpToSlash(k.family, k.name, key.family, key.name);
  }

  /** An entry found under a key's text is the key's delta. */
  lemma {:induction false} FoundIsOf(entries: seq<Multiplicity.Entry>, deltas: map<Key, Delta>, key: Key)
    requires SlashFree(deltas) && '/' !in key.family
    requires forall i :: 0 <= i < |entries| ==> IsSomeEntry(entries[i], deltas)
    ensures var found := Gates.Find(entries, Text(key));
      && (found.Some? ==> key in deltas && found.value.stats == Multiplicity.Paired(deltas[key]))
      && (found.None? ==> forall i :: 0 <= i < |entries| ==> entries[i].key != Text(key))
  {
    if entries != [] {
      var n := |entries| - 1;
      if entries[n].key == Text(key) {
        EntryHasKey(entries[n], deltas, key);
      } else {
        FoundIsOf(entries[..n], deltas, key);
        assert forall i :: 0 <= i < n ==> entries[..n][i] == entries[i];
      }
    }
  }

  /** Under a key's text the entries hold the key's delta, if it has one. */
  lemma FindsDelta(entries: seq<Multiplicity.Entry>, deltas: map<Key, Delta>, key: Key)
    requires Carries(entries, deltas) && SlashFree(deltas) && '/' !in key.family
    ensures var found := Gates.Find(entries, Text(key));
      if key in deltas then found.Some? && found.value.stats == Multiplicity.Paired(deltas[key]) else found.None?
  {
    FoundIsOf(entries, deltas, key);
    if key in deltas {
      assert HasEntry(entries, key, deltas[key]);
    }
  }

  // ----- The comparison

  /** The deltas are those of the tables the runs give. */
  ghost predicate AreDeltasOf(metricDeltas: map<Strategy, map<Key, Delta>>, costDeltas: map<Strategy, map<Key, Delta>>,
                              runs: map<Strategy, seq<Run>>, order: seq<Strategy>, prices: Prices,
                              unmetered: set<Strategy>, settings: Settings)
    requires AreStrategies(order, runs) && DrawsEnough(settings)
  {
    && (forall s :: s in metricDeltas ==> AreTested(metricDeltas[s], settings))
    && (forall s :: s in costDeltas ==> AreTested(costDeltas[s], settings))
    && exists means, costs ::
         && AreMetricMeans(means, runs) && AreCostMeans(costs, runs, prices)
         && AreDeltasVsBaseline(metricDeltas, means, order, unmetered)
         && AreDeltasVsBaseline(costDeltas, costs, order, unmetered)
  }

  /** The comparison states the deltas of every strategy but the first, in order, and counts the runs. */
  ghost predicate Reports(c: Gates.Comparison, runs: map<Strategy, seq<Run>>, order: seq<Strategy>, prices: Prices,
                          metricDeltas: map<Strategy, map<Key, Delta>>, costDeltas: map<Strategy, map<Key, Delta>>)
    requires AreStrategies(order, runs)
  {
    && CountsRuns(c, runs, prices) && (forall s :: Gates.BaselineOf(c, s) == order[0])
    && |c.rows| == |order| - 1 && AreRows(c.rows, order, metricDeltas, costDeltas)
  }

  method CountAll(runs: map<Strategy, seq<Run>>, order: seq<Strategy>, prices: Prices)
    returns (costStats: map<string, Gates.CostStats>, failedScores: map<string, map<string, nat>>)
    requires AreStrategies(order, runs)
    ensures forall s :: s in runs ==> s in costStats && costStats[s] == CountersOf(runs[s], prices)
    ensures forall s :: s in runs ==> s in failedScores && CountsFailing(failedScores[s], runs[s])
  {
    costStats, failedScores := map[], map[];
    for i := 0 to |order|
      invariant forall s :: s in order[..i] ==> s in costStats && s in runs && costStats[s] == CountersOf(runs[s], prices)
      invariant forall s :: s in order[..i] ==> s in failedScores && s in runs && CountsFailing(failedScores[s], runs[s])
    {
      assert order[i] in order;
      var stats := CountCosts(runs[order[i]], prices);
      var failing := CountFailing(runs[order[i]]);
      costStats, failedScores := costStats[order[i] := stats], failedScores[order[i] := failing];
      assert order[..i + 1] == order[..i] + [order[i]];
    }
    assert order[..|order|] == order;
  }

  ghost predicate CountsFailing(counts: map<string, nat>, runs: seq<Run>) {
    forall k: MetricKey :: CountAt(counts, Text(k)) == Failing(runs, k)
  }

  /** The delta objects of some entries. */
  ghost function ObjectsOf(entries: seq<Multiplicity.Entry>): set<Multiplicity.AdjustedDelta> {
    set i | 0 <= i < |entries| :: entries[i].delta
  }

  lemma {:induction false} ApartOnce(entries: seq<Multiplicity.Entry>, d: Multiplicity.AdjustedDelta)
    requires Apart(entries)
    ensures Multiplicity.Times(Multiplicity.DeltasOf(entries), d) == if d in ObjectsOf(entries) then 1 else 0
  {
    if entries != [] {
      var n := |entries| - 1;
      ApartOnce(entries[..n], d);
      assert forall i :: 0 <= i < n ==> entries[..n][i] == entries[i];
      assert d in ObjectsOf(entries) <==> d in ObjectsOf(entries[..n]) || d == entries[n].delta;
    }
  }

  lemma TimesWithRow(rows: seq<Multiplicity.StrategyDeltas>, row: Multiplicity.StrategyDeltas,
                     d: Multiplicity.AdjustedDelta)
    requires Apart(row.metrics) && Apart(row.cost)
    ensures Multiplicity.Times(Multiplicity.AllDeltas(rows + [row]), d)
      == Multiplicity.Times(Multiplicity.AllDeltas(rows), d)
         + (if d in ObjectsOf(row.metrics) then 1 else 0) + if d in ObjectsOf(row.cost) then 1 else 0
    ensures d in Multiplicity.AllDeltas(rows + [row]) <==>
      d in Multiplicity.AllDeltas(rows) || d in ObjectsOf(row.metrics) || d in ObjectsOf(row.cost)
  {
    var all := rows + [row];
    assert all[..|rows|] == rows;
    Multiplicity.AllDeltasNext(all, d);
    Multiplicity.TimesListed(Multiplicity.AllDeltas(all), d);
    Multiplicity.TimesListed(Multiplicity.AllDeltas(rows), d);
    ApartOnce(row.metrics, d);
    ApartOnce(row.cost, d);
  }

  /** A row of new objects keeps every delta an object of its own. */
  lemma RowAdded(rows: seq<Multiplicity.StrategyDeltas>, row: Multiplicity.StrategyDeltas)
    requires Multiplicity.Unshared(rows) && Apart(row.metrics) && Apart(row.cost)
    requires ObjectsOf(row.metrics) !! ObjectsOf(row.cost)
    requires Multiplicity.DeltaSet(rows) !! ObjectsOf(row.metrics) && Multiplicity.DeltaSet(rows) !! ObjectsOf(row.cost)
    ensures Multiplicity.Unshared(rows + [row])
    ensures forall d :: d in Multiplicity.DeltaSet(rows + [row]) ==>
      d in Multiplicity.DeltaSet(rows) + ObjectsOf(row.metrics) + ObjectsOf(row.cost)
  {
    forall d | d in Multiplicity.AllDeltas(rows + [row])
      ensures d in Multiplicity.DeltaSet(rows) + ObjectsOf(row.metrics) + ObjectsOf(row.cost)
      ensures Multiplicity.Times(Multiplicity.AllDeltas(rows + [row]), d) == 1
    {
      TimesWithRow(rows, row, d);
      Multiplicity.TimesListed(Multiplicity.AllDeltas(rows), d);
    }
  }

  method RowOf(strategy: Strategy, metricDeltas: map<Key, Delta>, costDeltas: map<Key, Delta>)
    returns (row: Multiplicity.StrategyDeltas)
    ensures row.strategy == strategy && Carries(row.metrics, metricDeltas) && Carries(row.cost, costDeltas)
    ensures Apart(row.metrics) && Apart(row.cost) && ObjectsOf(row.metrics) !! ObjectsOf(row.cost)
    ensures forall d :: d in ObjectsOf(row.metrics) ==> fresh(d) && d.adjustment == None
    ensures forall d :: d in ObjectsOf(row.cost) ==> fresh(d) && d.adjustment == None
  {
    var metrics := EntriesOf(metricDeltas);
    var cost := EntriesOf(costDeltas);
    row := Multiplicity.StrategyDeltas(strategy, metrics, cost);
  }

  ghost predicate IsRow(row: Multiplicity.StrategyDeltas, strategy: Strategy,
                        metricDeltas: map<Strategy, map<Key, Delta>>,
                        costDeltas: map<Strategy, map<Key, Delta>>)
  {
    && row.strategy == strategy && strategy in metricDeltas && strategy in costDeltas
    && Carries(row.metrics, metricDeltas[strategy]) && Carries(row.cost, costDeltas[strategy])
  }

  /** The rows are of the first compared strategies, in their order. */
  ghost predicate AreRows(rows: seq<Multiplicity.StrategyDeltas>, order: seq<Strategy>,
                          metricDeltas: map<Strategy, map<Key, Delta>>, costDeltas: map<Strategy, map<Key, Delta>>) {
    forall i :: 0 <= i < |rows| && i + 1 < |order| ==> IsRow(rows[i], order[i + 1], metricDeltas, costDeltas)
  }

  /** One more row, of new objects; `known` holds those of the rows so far. */
  method AddRow(rows: seq<Multiplicity.StrategyDeltas>, ghost known: set<Multiplicity.AdjustedDelta>,
                order: seq<Strategy>, metricDeltas: map<Strategy, map<Key, Delta>>,
                costDeltas: map<Strategy, map<Key, Delta>>)
    returns (more: seq<Multiplicity.StrategyDeltas>, ghost all: set<Multiplicity.AdjustedDelta>)
    requires Multiplicity.Unshared(rows) && known == Multiplicity.DeltaSet(rows) && |rows| + 1 < |order|
    requires order[|rows| + 1] in metricDeltas && order[|rows| + 1] in costDeltas
    requires AreRows(rows, order, metricDeltas, costDeltas)
    ensures Multiplicity.Unshared(more) && all == Multiplicity.DeltaSet(more) && |more| == |rows| + 1
    ensures AreRows(more, order, metricDeltas, costDeltas)
    ensures forall d :: d in all ==> d in known || (fresh(d) && d.adjustment == None)
  {
    var strategy := order[|rows| + 1];
    var row := RowOf(strategy, metricDeltas[strategy], costDeltas[strategy]);
    assert known !! ObjectsOf(row.metrics) && known !! ObjectsOf(row.cost);
    RowAdded(rows, row);
    more := rows + [row];
    all := Multiplicity.DeltaSet(more);
  }

  /** The rows of the strategies but the first, each delta a new object. */
  method RowsOf(order: seq<Strategy>, metricDeltas: map<Strategy, map<Key, Delta>>,
                costDeltas: map<Strategy, map<Key, Delta>>)
    returns (rows: seq<Multiplicity.StrategyDeltas>)
    requires order != [] && forall i :: 1 <= i < |order| ==> order[i] in metricDeltas && order[i] in costDeltas
    ensures |rows| == |order| - 1 && Multiplicity.Unshared(rows)
    ensures forall d :: d in Multiplicity.DeltaSet(rows) ==> fresh(d) && d.adjustment == None
    ensures AreRows(rows, order, metricDeltas, costDeltas)
  {
    rows := [];
    ghost var known: set<Multiplicity.AdjustedDelta> := {};
    for i := 1 to |order|
      invariant |rows| == i - 1 && Multiplicity.Unshared(rows) && known == Multiplicity.DeltaSet(rows)
      invariant forall d :: d in known ==> fresh(d) && d.adjustment == None
      invariant AreRows(rows, order, metricDeltas, costDeltas)
    {
      rows, known := AddRow(rows, known, order, metricDeltas, costDeltas);
    }
  }

  /** Every strategy but the first is compared with the first. */
  function BaselinesOf(order: seq<Strategy>): (baselines: map<Strategy, Strategy>)
    requires order != []
    ensures forall s :: s in baselines ==> baselines[s] == order[0]
  {
    map s | s in order[1..] :: order[0]
  }

  /** The comparison that reports these deltas, each as an object of its own, beside the runs' counters. */
  method ReportOf(runs: map<Strategy, seq<Run>>, order: seq<Strategy>, prices: Prices,
                  metricDeltas: map<Strategy, map<Key, Delta>>, costDeltas: map<Strategy, map<Key, Delta>>)
    returns (c: Gates.Comparison)
    requires AreStrategies(order, runs)
    requires forall i :: 1 <= i < |order| ==> order[i] in metricDeltas && order[i] in costDeltas
    ensures Reports(c, runs, order, prices, metricDeltas, costDeltas) && c.closedBook == {}
    ensures Multiplicity.Unshared(c.rows)
    ensures forall d :: d in Multiplicity.DeltaSet(c.rows) ==> fresh(d) && d.adjustment == None
  {
    var costStats, failedScores := CountAll(runs, order, prices);
    var rows := RowsOf(order, metricDeltas, costDeltas);
    c := Gates.Comparison(rows, costStats, failedScores, order[0], BaselinesOf(order), {});
    CountsAreRuns(c, runs, prices);
  }

  /** The paired comparison of every strategy with the first. */
  method Compare(runs: map<Strategy, seq<Run>>, order: seq<Strategy>, prices: Prices, unmetered: set<Strategy>,
                 settings: Settings)
    returns (c: Gates.Comparison, metricDeltas: map<Strategy, map<Key, Delta>>, costDeltas: map<Strategy, map<Key, Delta>>)
    requires AreStrategies(order, runs) && DrawsEnough(settings)
    ensures AreDeltasOf(metricDeltas, costDeltas, runs, order, prices, unmetered, settings)
    ensures Reports(c, runs, order, prices, metricDeltas, costDeltas) && c.closedBook == {}
    ensures Multiplicity.Unshared(c.rows)
    ensures forall d :: d in Multiplicity.DeltaSet(c.rows) ==> fresh(d) && d.adjustment == None
  {
    var means := MetricTables(runs, order);
    var costs := CostTables(runs, order, prices);
    metricDeltas := DeltasVsBaseline(means, order, unmetered, settings);
    costDeltas := DeltasVsBaseline(costs, order, unmetered, settings);
    assert forall i :: 1 <= i < |order| ==> order[i] in order[1..];
    c := ReportOf(runs, order, prices, metricDeltas, costDeltas);
  }

  lemma CountsAreRuns(c: Gates.Comparison, runs: map<Strategy, seq<Run>>, prices: Prices)
    requires forall s :: s in runs ==> s in c.costStats && c.costStats[s] == CountersOf(runs[s], prices)
    requires forall s :: s in runs ==> s in c.failedScores && CountsFailing(c.failedScores[s], runs[s])
    ensures CountsRuns(c, runs, prices)
  {
    forall s, k: MetricKey | s in runs
      ensures Gates.Unscored(c, s, Text(k)) == Failing(runs[s], k)
    {
      assert CountAt(c.failedScores[s], Text(k)) == Failing(runs[s], k);
    }
  }

  // ----- What a gate reads of the runs

  lemma FamiliesHaveNoSlash(key: Key)
    requires IsMetric(key) || key in COST_MEASURES
    ensures '/' !in key.family
  {
    if key in COST_MEASURES {
      assert key.family == "usage" || key.family == "latency";
    } else if key == ABSTENTION_RECALL {
      assert key.family == "abstention";
    } else {
      FamilyHasNoSlash(key.family);
    }
  }

  /** The tables a strategy's deltas are of. */
  lemma TablesBehind(runs: map<Strategy, seq<Run>>, order: seq<Strategy>, prices: Prices, unmetered: set<Strategy>,
                     settings: Settings, metricDeltas: map<Strategy, map<Key, Delta>>,
                     costDeltas: map<Strategy, map<Key, Delta>>, s: Strategy)
    returns (means: map<Strategy, Table<real>>, costs: map<Strategy, Table<real>>)
    requires AreStrategies(order, runs) && DrawsEnough(settings) && s in order[1..]
    requires AreDeltasOf(metricDeltas, costDeltas, runs, order, prices, unmetered, settings)
    ensures AreMetricMeans(means, runs) && AreCostMeans(costs, runs, prices) && order[0] in runs && s in runs
    ensures s in metricDeltas && s in costDeltas
    ensures AreDeltas(metricDeltas[s], means[order[0]], means[s], Skipped(unmetered, order[0], s))
    ensures AreDeltas(costDeltas[s], costs[order[0]], costs[s], Skipped(unmetered, order[0], s))
  {
    means, costs :|
      && AreMetricMeans(means, runs) && AreCostMeans(costs, runs, prices)
      && AreDeltasVsBaseline(metricDeltas, means, order, unmetered)
      && AreDeltasVsBaseline(costDeltas, costs, order, unmetered);
    assert order[0] in order;
  }

  /** The metric deltas are of metrics, the cost deltas of cost measures. */
  lemma DeltaKeys(runs: map<Strategy, seq<Run>>, order: seq<Strategy>, prices: Prices, unmetered: set<Strategy>,
                  settings: Settings, metricDeltas: map<Strategy, map<Key, Delta>>,
                  costDeltas: map<Strategy, map<Key, Delta>>, s: Strategy)
    requires AreStrategies(order, runs) && DrawsEnough(settings)
    requires AreDeltasOf(metricDeltas, costDeltas, runs, order, prices, unmetered, settings)
    requires s in order[1..]
    ensures s in metricDeltas && forall k :: k in metricDeltas[s] ==> IsMetric(k)
    ensures s in costDeltas && forall k :: k in costDeltas[s] ==> k in COST_MEASURES
  {
    var means, costs := TablesBehind(runs, order, prices, unmetered, settings, metricDeltas, costDeltas, s);
    var baseline := order[0];
    FailedAreMetrics(runs, baseline);
    forall k | k in metricDeltas[s]
      ensures IsMetric(k)
    {
      KeyOfMeans(means[baseline], runs[baseline], FailedMap(runs, baseline), k);
    }
    forall k | k in costDeltas[s]
      ensures k in COST_MEASURES
    {
      KeyOfCosts(costs[baseline], runs[baseline], prices, k);
    }
  }

  /** A gate on a measure reads the runs' own delta of it, a metric's or a cost measure's, and none if there is none. */
  lemma GateReadsTheRuns(c: Gates.Comparison, runs: map<Strategy, seq<Run>>, order: seq<Strategy>, prices: Prices,
                         unmetered: set<Strategy>, settings: Settings, metricDeltas: map<Strategy, map<Key, Delta>>,
                         costDeltas: map<Strategy, map<Key, Delta>>, i: nat, key: Key)
    requires AreStrategies(order, runs) && DrawsEnough(settings)
    requires AreDeltasOf(metricDeltas, costDeltas, runs, order, prices, unmetered, settings)
    requires Reports(c, runs, order, prices, metricDeltas, costDeltas) && i < |c.rows|
    requires IsMetric(key) || key in COST_MEASURES
    ensures order[i + 1] in metricDeltas && order[i + 1] in costDeltas
    ensures var found := Gates.DeltaFor(c.rows[i], Text(key));
      var metrics, costs := metricDeltas[order[i + 1]], costDeltas[order[i + 1]];
      if key in metrics then found.Some? && found.value.stats == Multiplicity.Paired(metrics[key])
      else if key in costs then found.Some? && found.value.stats == Multiplicity.Paired(costs[key])
      else found.None?
  {
    var s, row := order[i + 1], c.rows[i];
    assert IsRow(row, s, metricDeltas, costDeltas) && s == order[1..][i];
    DeltaKeys(runs, order, prices, unmetered, settings, metricDeltas, costDeltas, s);
    KeysAreSlashFree(metricDeltas[s]);
    KeysAreSlashFree(costDeltas[s]);
    FamiliesHaveNoSlash(key);
    FindsDelta(row.metrics, metricDeltas[s], key);
    FindsDelta(row.cost, costDeltas[s], key);
  }

  /** A gate on a cost measure reads the cost delta. */
  lemma CostGateReads(c: Gates.Comparison, runs: map<Strategy, seq<Run>>, order: seq<Strategy>, prices: Prices,
                      unmetered: set<Strategy>, settings: Settings, metricDeltas: map<Strategy, map<Key, Delta>>,
                      costDeltas: map<Strategy, map<Key, Delta>>, i: nat, key: Key)
    requires AreStrategies(order, runs) && DrawsEnough(settings)
    requires AreDeltasOf(metricDeltas, costDeltas, runs, order, prices, unmetered, settings)
    requires Reports(c, runs, order, prices, metricDeltas, costDeltas) && i < |c.rows|
    requires order[i + 1] in costDeltas && key in costDeltas[order[i + 1]] && key in COST_MEASURES
    ensures var found := Gates.DeltaFor(c.rows[i], Text(key));
      found.Some? && found.value.stats == Multiplicity.Paired(costDeltas[order[i + 1]][key])
  {
    GateReadsTheRuns(c, runs, order, prices, unmetered, settings, metricDeltas, costDeltas, i, key);
    assert order[i + 1] == order[1..][i];
    DeltaKeys(runs, order, prices, unmetered, settings, metricDeltas, costDeltas, order[i + 1]);
    if key in metricDeltas[order[i + 1]] {
      MetricIsNoCost(key);
    }
  }

  /** A comparison of two strategies has one row. */
  lemma OneRow(c: Gates.Comparison, runs: map<Strategy, seq<Run>>, order: seq<Strategy>, prices: Prices,
               metricDeltas: map<Strategy, map<Key, Delta>>, costDeltas: map<Strategy, map<Key, Delta>>)
    requires AreStrategies(order, runs) && |order| == 2 && Reports(c, runs, order, prices, metricDeltas, costDeltas)
    ensures |c.rows| == 1 && c.rows == [c.rows[0]] && c.rows[0].strategy == order[1]
  {
    assert IsRow(c.rows[0], order[1], metricDeltas, costDeltas);
  }

  lemma KeysAreSlashFree(deltas: map<Key, Delta>)
    requires forall k :: k in deltas ==> IsMetric(k) || k in COST_MEASURES
    ensures SlashFree(deltas)
  {
    forall k | k in deltas
      ensures '/' !in k.family
    {
      FamiliesHaveNoSlash(k);
    }
  }
}
