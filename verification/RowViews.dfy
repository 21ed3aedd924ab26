// The comparison's deltas and its per-query rows are two views of the same values.
module RowViews {
  import opened Reals
  import opened Options
  import opened Comparison
  import opened Costs
  import opened Deltas
  import opened Listings

  // ----- The comparison's deltas

  /** The failed scores of a strategy as a map, per query scored by some run. */
  function FailedMap(runs: map<Strategy, seq<Run>>, s: Strategy): map<QueryId, set<Key>>
    requires s in runs
  {
    map q | q in Queries(runs) :: FailedScores(runs, s, q)
  }

  function ColumnAt(t: Table<real>, key: Key): map<QueryId, real> {
    if key in t then t[key] else map[]
  }

  /** A delta for each of the baseline's keys the two sides share a query on, `skipped` ones left out. */
  ghost predicate AreDeltas(d: map<Key, Delta>, base: Table<real>, other: Table<real>, skipped: set<Key>) {
    && (forall k :: k in d <==> k in base && k !in skipped && base[k].Keys * ColumnAt(other, k).Keys != {})
    && (forall k :: k in d ==> IsDelta(d[k], ColumnAt(base, k), ColumnAt(other, k)))
  }

  ghost predicate AreTested(d: map<Key, Delta>, settings: Settings)
    requires DrawsEnough(settings)
  {
    forall k :: k in d ==> IsTested(d[k], settings)
  }

  method DeltasAgainst(base: Table<real>, other: Table<real>, skipped: set<Key>, settings: Settings)
    returns (d: map<Key, Delta>)
    requires DrawsEnough(settings)
    ensures AreDeltas(d, base, other, skipped) && AreTested(d, settings)
  {
    d := map[];
    var left := base.Keys;
    while left != {}
      invariant left <= base.Keys
      invariant forall k :: k in d <==> k in base.Keys - left && k !in skipped && base[k].Keys * ColumnAt(other, k).Keys != {}
      invariant forall k :: k in d ==> IsDelta(d[k], ColumnAt(base, k), ColumnAt(other, k))
      invariant AreTested(d, settings)
    {
      var key :| key in left;
      left := left - {key};
      if key !in skipped {
        var delta := DeltaStats(base[key], ColumnAt(other, key), settings);
        if delta.Some? {
          d := d[key := delta.value];
        }
      }
    }
  }

  /** The metric means behind a comparison and its rows. */
  ghost predicate AreMetricMeans(means: map<Strategy, Table<real>>, runs: map<Strategy, seq<Run>>) {
    means.Keys == runs.Keys && forall s :: s in runs ==> IsMeansOfRuns(means[s], runs[s], FailedMap(runs, s))
  }

  ghost predicate AreCostMeans(costs: map<Strategy, Table<real>>, runs: map<Strategy, seq<Run>>, prices: Prices) {
    costs.Keys == runs.Keys && forall s :: s in runs ==> IsCostMeans(costs[s], runs[s], prices)
  }

  /** The strategies in the order given: the first is the baseline. */
  ghost predicate AreStrategies(order: seq<Strategy>, runs: map<Strategy, seq<Run>>) {
    order != [] && Lists(order, runs.Keys)
  }

  method MetricTables(runs: map<Strategy, seq<Run>>, order: seq<Strategy>) returns (tables: map<Strategy, Table<real>>)
    requires AreStrategies(order, runs)
    ensures AreMetricMeans(tables, runs)
  {
    tables := map[];
    for i := 0 to |order|
      invariant tables.Keys == set s | s in order[..i]
      invariant forall s :: s in tables ==> s in runs && IsMeansOfRuns(tables[s], runs[s], FailedMap(runs, s))
    {
      assert order[i] in order;
      var table := PerQueryMeans(runs[order[i]], FailedMap(runs, order[i]));
      tables := tables[order[i] := table];
      assert order[..i + 1] == order[..i] + [order[i]];
    }
    assert order[..|order|] == order;
  }

  method CostTables(runs: map<Strategy, seq<Run>>, order: seq<Strategy>, prices: Prices)
    returns (tables: map<Strategy, Table<real>>)
    requires AreStrategies(order, runs)
    ensures AreCostMeans(tables, runs, prices)
  {
    tables := map[];
    for i := 0 to |order|
      invariant tables.Keys == set s | s in order[..i]
      invariant forall s :: s in tables ==> s in runs && IsCostMeans(tables[s], runs[s], prices)
    {
      assert order[i] in order;
      var table := CostMeans(runs[order[i]], prices);
      tables := tables[order[i] := table];
      assert order[..i + 1] == order[..i] + [order[i]];
    }
    assert order[..|order|] == order;
  }

  /** A USD delta is skipped when only one side's usage meters its rerank requests. */
  function Skipped(unmetered: set<Strategy>, baseline: Strategy, s: Strategy): set<Key> {
    if (s in unmetered) != (baseline in unmetered) then {USD_MEASURE} else {}
  }

  /** Only the USD delta is ever left out, and exactly when one side meters its rerank requests and the other does not. */
  lemma SkippedIff(unmetered: set<Strategy>, baseline: Strategy, s: Strategy, key: Key)
    ensures key in Skipped(unmetered, baseline, s)
            <==> key == Key("usage", "cost_usd") && (s in unmetered <==> baseline !in unmetered)
  {
  }

  /** A delta table for every strategy but the first. */
  ghost predicate AreDeltasVsBaseline(deltas: map<Strategy, map<Key, Delta>>, tables: map<Strategy, Table<real>>,
                                      order: seq<Strategy>, unmetered: set<Strategy>)
    requires order != [] && Lists(order, tables.Keys)
  {
    && deltas.Keys == (set s | s in order[1..])
    && (forall s :: s in deltas ==> s in tables && order[0] in tables)
    && forall s :: s in deltas ==> AreDeltas(deltas[s], tables[order[0]], tables[s], Skipped(unmetered, order[0], s))
  }

  /** The deltas of every strategy against the first. */
  method DeltasVsBaseline(tables: map<Strategy, Table<real>>, order: seq<Strategy>, unmetered: set<Strategy>,
                          settings: Settings) returns (deltas: map<Strategy, map<Key, Delta>>)
    requires order != [] && Lists(order, tables.Keys) && DrawsEnough(settings)
    ensures AreDeltasVsBaseline(deltas, tables, order, unmetered)
    ensures forall s :: s in deltas ==> AreTested(deltas[s], settings)
  {
    deltas := map[];
    assert order[0] in order;
    for i := 1 to |order|
      invariant deltas.Keys == set s | s in order[1..i]
      invariant forall s :: s in deltas ==>
        s in tables && AreDeltas(deltas[s], tables[order[0]], tables[s], Skipped(unmetered, order[0], s))
      invariant forall s :: s in deltas ==> AreTested(deltas[s], settings)
    {
      assert order[i] in order;
      var d := DeltasAgainst(tables[order[0]], tables[order[i]], Skipped(unmetered, order[0], order[i]), settings);
      deltas := deltas[order[i] := d];
      assert order[1..i + 1] == order[1..i] + [order[i]];
    }
    assert order[1..|order|] == order[1..];
  }

  // ----- The rows

  datatype Row = Row(strategy: Strategy, baseline: Strategy, measure: Key, query: QueryId,
                     baselineValue: Option<real>, value: Option<real>, delta: Option<real>)

  function Get(m: map<QueryId, real>, q: QueryId): Option<real> {
    if q in m then Some(m[q]) else None
  }

  function RowOf(s: Strategy, baseline: Strategy, key: Key, base: map<QueryId, real>, other: map<QueryId, real>,
                 q: QueryId): Row {
    var b, o := Get(base, q), Get(other, q);
    Row(s, baseline, key, q, b, o, if o.Some? && b.Some? then Some(o.value - b.value) else None)
  }

  function QueriesOf(rows: seq<Row>): (r: seq<QueryId>)
    ensures |r| == |rows|
  {
    if rows == [] then [] else [rows[0].query] + QueriesOf(rows[1..])
  }

  /** The rows of one strategy and measure. */
  function RowsFor(rows: seq<Row>, s: Strategy, key: Key): seq<Row> {
    if rows == [] then [] else
      (if rows[0].strategy == s && rows[0].measure == key then [rows[0]] else []) + RowsFor(rows[1..], s, key)
  }

  /** One row per query that either side has a value for, stating both values and their difference. */
  ghost predicate IsRowView(rows: seq<Row>, s: Strategy, baseline: Strategy, key: Key,
                            base: map<QueryId, real>, other: map<QueryId, real>) {
    && Lists(QueriesOf(rows), base.Keys + other.Keys)
    && forall i :: 0 <= i < |rows| ==> rows[i] == RowOf(s, baseline, key, base, other, rows[i].query)
  }

  lemma {:induction false} RowsForConcat(a: seq<Row>, b: seq<Row>, s: Strategy, key: Key)
    ensures RowsFor(a + b, s, key) == RowsFor(a, s, key) + RowsFor(b, s, key)
  {
    if a == [] {
      assert a + b == b;
    } else {
      var head := if a[0].strategy == s && a[0].measure == key then [a[0]] else [];
      RowsForConcat(a[1..], b, s, key);
      assert (a + b)[0] == a[0] && (a + b)[1..] == a[1..] + b;
      assert head + (RowsFor(a[1..], s, key) + RowsFor(b, s, key)) == head + RowsFor(a[1..], s, key) + RowsFor(b, s, key);
    }
  }

  lemma {:induction false} RowsForBlock(rows: seq<Row>, s: Strategy, key: Key, t: Strategy, k: Key)
    requires forall i :: 0 <= i < |rows| ==> rows[i].strategy == s && rows[i].measure == key
    ensures RowsFor(rows, t, k) == if s == t && key == k then rows else []
  {
    if rows != [] {
      RowsForBlock(rows[1..], s, key, t, k);
    }
  }

  lemma {:induction false} QueriesOfAppend(rows: seq<Row>, row: Row)
    ensures QueriesOf(rows + [row]) == QueriesOf(rows) + [row.query]
  {
    if rows != [] {
      QueriesOfAppend(rows[1..], row);
      assert (rows + [row])[1..] == rows[1..] + [row];
    }
  }

  method RowsOfKey(s: Strategy, baseline: Strategy, key: Key, base: map<QueryId, real>, other: map<QueryId, real>)
    returns (rows: seq<Row>)
    ensures IsRowView(rows, s, baseline, key, base, other)
  {
    rows := [];
    var queries := Listed(base.Keys + other.Keys);
    for i := 0 to |queries|
      invariant QueriesOf(rows) == queries[..i]
      invariant forall j :: 0 <= j < |rows| ==> rows[j] == RowOf(s, baseline, key, base, other, rows[j].query)
    {
      var row := RowOf(s, baseline, key, base, other, queries[i]);
      QueriesOfAppend(rows, row);
      rows := rows + [row];
      assert queries[..i + 1] == queries[..i] + [queries[i]];
    }
    assert queries[..|queries|] == queries;
  }

  /** The rows kept for a measure are its view. */
  ghost predicate ViewsKey(rows: seq<Row>, s: Strategy, baseline: Strategy, k: Key, base: Table<real>,
                           other: Table<real>) {
    IsRowView(RowsFor(rows, s, k), s, baseline, k, ColumnAt(base, k), ColumnAt(other, k))
  }

  lemma AppendBlock(rows: seq<Row>, block: seq<Row>, s: Strategy, key: Key, t: Strategy, k: Key)
    requires forall i :: 0 <= i < |block| ==> block[i].strategy == s && block[i].measure == key
    ensures s == t && key == k && RowsFor(rows, t, k) == [] ==> RowsFor(rows + block, t, k) == block
    ensures !(s == t && key == k) ==> RowsFor(rows + block, t, k) == RowsFor(rows, t, k)
  {
    RowsForConcat(rows, block, t, k);
    RowsForBlock(block, s, key, t, k);
  }

  /** The rows of one strategy hold the view of each of its measures, and no others. */
  method RowsOfStrategy(s: Strategy, baseline: Strategy, base: Table<real>, other: Table<real>) returns (rows: seq<Row>)
    ensures forall k :: ViewsKey(rows, s, baseline, k, base, other)
    ensures forall t, k :: t != s ==> RowsFor(rows, t, k) == []
  {
    rows := [];
    var left := base.Keys + other.Keys;
    while left != {}
      invariant left <= base.Keys + other.Keys
      invariant forall k :: k in left ==> RowsFor(rows, s, k) == []
      invariant forall k :: k !in left ==> ViewsKey(rows, s, baseline, k, base, other)
      invariant forall t, k :: t != s ==> RowsFor(rows, t, k) == []
    {
      var key :| key in left;
      var block := RowsOfKey(s, baseline, key, ColumnAt(base, key), ColumnAt(other, key));
      forall k | k !in left - {key}
        ensures ViewsKey(rows + block, s, baseline, k, base, other)
      {
        assert k != key ==> ViewsKey(rows, s, baseline, k, base, other);
        AppendBlock(rows, block, s, key, s, k);
      }
      forall t, k | t != s || k in left - {key}
        ensures RowsFor(rows + block, t, k) == []
      {
        AppendBlock(rows, block, s, key, t, k);
      }
      rows := rows + block;
      left := left - {key};
    }
  }

  /** Each strategy's metric means, and its cost means written over them. */
  ghost function Together(means: map<Strategy, Table<real>>,
                          costs: map<Strategy, Table<real>>): map<Strategy, Table<real>>
    requires means.Keys == costs.Keys
  {
    map s | s in means :: means[s] + costs[s]
  }

  /** The rows hold the view of every strategy but the first on each of its measures, and no others. */
  ghost predicate AreRows(rows: seq<Row>, order: seq<Strategy>, values: map<Strategy, Table<real>>)
    requires order != [] && order[0] in values && forall s :: s in order ==> s in values
  {
    && (forall s, k :: s in order[1..] ==> ViewsKey(rows, s, order[0], k, values[order[0]], values[s]))
    && forall s, k :: s !in order[1..] ==> RowsFor(rows, s, k) == []
  }

  ghost predicate AreRowsOf(rows: seq<Row>, order: seq<Strategy>, means: map<Strategy, Table<real>>,
                            costs: map<Strategy, Table<real>>) {
    && means.Keys == costs.Keys && order != [] && (forall s :: s in order ==> s in means)
    && order[0] in means && AreRows(rows, order, Together(means, costs))
  }

  /** The rows behind a comparison, over the metrics and cost measures the runs give. */
  method PerQueryRows(runs: map<Strategy, seq<Run>>, order: seq<Strategy>, prices: Prices) returns (rows: seq<Row>)
    requires AreStrategies(order, runs)
    ensures forall means, costs :: AreMetricMeans(means, runs) && AreCostMeans(costs, runs, prices) ==>
              AreRowsOf(rows, order, means, costs)
  {
    var metrics := MetricTables(runs, order);
    var measures := CostTables(runs, order, prices);
    var values := map s | s in metrics :: metrics[s] + measures[s];
    assert values == Together(metrics, measures);
    assert order[0] in order;
    rows := RowsOfAll(values, order);
    forall means, costs | AreMetricMeans(means, runs) && AreCostMeans(costs, runs, prices)
      ensures AreRowsOf(rows, order, means, costs)
    {
      SameTables(runs, prices, metrics, means, measures, costs);
    }
  }

  method RowsOfAll(values: map<Strategy, Table<real>>, order: seq<Strategy>) returns (rows: seq<Row>)
    requires order != [] && Lists(order, values.Keys)
    ensures order[0] in values && (forall s :: s in order ==> s in values)
    ensures AreRows(rows, order, values)
  {
    assert order[0] in order;
    rows := [];
    for i := 1 to |order|
      invariant forall t, k :: t !in order[1..i] ==> RowsFor(rows, t, k) == []
      invariant forall t, k :: t in order[1..i] ==>
        t in values && ViewsKey(rows, t, order[0], k, values[order[0]], values[t])
    {
      var s := order[i];
      assert s in order;
      var block := RowsOfStrategy(s, order[0], values[order[0]], values[s]);
      assert order[1..i + 1] == order[1..i] + [s];
      assert s !in order[1..i];
      forall k
        ensures ViewsKey(rows + block, s, order[0], k, values[order[0]], values[s])
      {
        RowsForConcat(rows, block, s, k);
        assert RowsFor(rows + block, s, k) == RowsFor(block, s, k);
        assert ViewsKey(block, s, order[0], k, values[order[0]], values[s]);
      }
      forall t, k | t != s
        ensures RowsFor(rows + block, t, k) == RowsFor(rows, t, k)
      {
        RowsForConcat(rows, block, t, k);
      }
      forall t, k | t in order[1..i]
        ensures ViewsKey(rows + block, t, order[0], k, values[order[0]], values[t])
      {
        assert ViewsKey(rows, t, order[0], k, values[order[0]], values[t]);
      }
      rows := rows + block;
    }
    assert order[1..|order|] == order[1..];
  }

  // ----- The two views agree

  /** The queries whose row states a difference, and the differences stated. */
  ghost function PairedIn(rows: seq<Row>): seq<QueryId> {
    if rows == [] then [] else (if rows[0].delta.Some? then [rows[0].query] else []) + PairedIn(rows[1..])
  }

  ghost function StatedDeltas(rows: seq<Row>): seq<real> {
    if rows == [] then [] else (if rows[0].delta.Some? then [rows[0].delta.value] else []) + StatedDeltas(rows[1..])
  }

  /** The queries with a stated difference are those of the delta. */
  lemma {:induction false} StatedAreTheDelta(rows: seq<Row>, queries: set<QueryId>, d: map<QueryId, real>)
    requires Lists(QueriesOf(rows), queries)
    requires forall i :: 0 <= i < |rows| ==> rows[i].delta == Get(d, rows[i].query)
    ensures Lists(PairedIn(rows), queries * d.Keys)
    ensures StatedDeltas(rows) == Column(PairedIn(rows), d)
  {
    if rows != [] {
      var q, rest := rows[0].query, rows[1..];
      ListedTail(QueriesOf(rows), queries);
      StatedAreTheDelta(rest, queries - {q}, d);
      if q in d {
        ListsPrepend(q, PairedIn(rest), (queries - {q}) * d.Keys);
        assert PairedIn(rows)[1..] == PairedIn(rest);
        assert {q} + (queries - {q}) * d.Keys == queries * d.Keys;
      } else {
        assert PairedIn(rows) == PairedIn(rest) && StatedDeltas(rows) == StatedDeltas(rest);
        assert (queries - {q}) * d.Keys == queries * d.Keys;
      }
    }
  }

  lemma ListsPrepend(q: QueryId, order: seq<QueryId>, s: set<QueryId>)
    requires Lists(order, s) && q !in s
    ensures Lists([q] + order, {q} + s)
  {
  }

  lemma UnionSize(a: set<QueryId>, b: set<QueryId>)
    ensures |a + b| == |a * b| + |(a - b) + (b - a)|
  {
    var shared, apart := a * b, (a - b) + (b - a);
    assert a + b == shared + apart && shared !! apart;
  }

  lemma RowCount(rows: seq<Row>, base: map<QueryId, real>, other: map<QueryId, real>)
    requires Lists(QueriesOf(rows), base.Keys + other.Keys)
    ensures |rows| == |base.Keys * other.Keys| + |OneSided(base, other)|
  {
    ListedSize(QueriesOf(rows), base.Keys + other.Keys);
    UnionSize(base.Keys, other.Keys);
  }

  lemma StatedTotals(rows: seq<Row>, base: map<QueryId, real>, other: map<QueryId, real>)
    requires Lists(QueriesOf(rows), base.Keys + other.Keys)
    requires forall i :: 0 <= i < |rows| ==> rows[i].delta == Get(Differences(base, other), rows[i].query)
    ensures var m := Differences(base, other);
      && Lists(PairedIn(rows), m.Keys)
      && |StatedDeltas(rows)| == |m| && Sum(StatedDeltas(rows)) == Total(m)
  {
    var m := Differences(base, other);
    StatedAreTheDelta(rows, base.Keys + other.Keys, m);
    assert (base.Keys + other.Keys) * m.Keys == m.Keys;
    ListedSize(PairedIn(rows), m.Keys);
    ColumnTotal(PairedIn(rows), m);
    assert |m.Keys| == |m|;
  }

  lemma RowStatesDifference(rows: seq<Row>, s: Strategy, baseline: Strategy, key: Key,
                            base: map<QueryId, real>, other: map<QueryId, real>)
    requires IsRowView(rows, s, baseline, key, base, other)
    ensures forall i :: 0 <= i < |rows| ==> rows[i].delta == Get(Differences(base, other), rows[i].query)
  {
    forall i | 0 <= i < |rows|
      ensures rows[i].delta == Get(Differences(base, other), rows[i].query)
    {
      assert rows[i] == RowOf(s, baseline, key, base, other, rows[i].query);
    }
  }

  /**
   * The rows of a measure tell the same story as its delta: as many rows as queries either side
   * has a value for, a difference stated exactly where the delta has one, with the same value,
   * and their mean is the delta's.
   */
  ghost predicate TellTheSame(rows: seq<Row>, d: Delta) {
    && |rows| == d.pairs + d.unpaired
    && (forall i :: 0 <= i < |rows| ==> rows[i].delta == Get(d.perQuery, rows[i].query))
    && Lists(PairedIn(rows), d.perQuery.Keys)
    && |StatedDeltas(rows)| == d.pairs == d.wins + d.ties + d.losses && d.pairs > 0
    && d.meanDelta == Mean(StatedDeltas(rows))
  }

  lemma StatedMean(rows: seq<Row>, m: map<QueryId, real>)
    requires |StatedDeltas(rows)| == |m| > 0 && Sum(StatedDeltas(rows)) == Total(m)
    ensures Mean(StatedDeltas(rows)) == Total(m) / |m| as real
  {
  }

  lemma RowsTellTheDelta(rows: seq<Row>, s: Strategy, baseline: Strategy, key: Key,
                         base: map<QueryId, real>, other: map<QueryId, real>, d: Delta)
    requires IsRowView(rows, s, baseline, key, base, other) && IsDelta(d, base, other)
    ensures TellTheSame(rows, d)
  {
    RowCount(rows, base, other);
    assert |d.perQuery.Keys| == |d.perQuery| && d.perQuery.Keys == base.Keys * other.Keys;
    RowStatesDifference(rows, s, baseline, key, base, other);
    StatedTotals(rows, base, other);
    StatedMean(rows, d.perQuery);
  }

  /**
   * The rows and the comparison read the same tables, although each computes its own: a
   * metric or cost measure of a strategy has the same values in both.
   */
  lemma SameTables(runs: map<Strategy, seq<Run>>, prices: Prices,
                   means: map<Strategy, Table<real>>, means': map<Strategy, Table<real>>,
                   costs: map<Strategy, Table<real>>, costs': map<Strategy, Table<real>>)
    requires AreMetricMeans(means, runs) && AreMetricMeans(means', runs)
    requires AreCostMeans(costs, runs, prices) && AreCostMeans(costs', runs, prices)
    ensures means == means' && costs == costs'
  {
    SameMeans(runs, means, means');
    SameCosts(runs, prices, costs, costs');
  }

  lemma SameMeans(runs: map<Strategy, seq<Run>>, means: map<Strategy, Table<real>>, means': map<Strategy, Table<real>>)
    requires AreMetricMeans(means, runs) && AreMetricMeans(means', runs)
    ensures means == means'
  {
    forall s | s in runs
      ensures means[s] == means'[s]
    {
      MeansUnique(means[s], means'[s], runs[s], FailedMap(runs, s));
    }
  }

  lemma SameCosts(runs: map<Strategy, seq<Run>>, prices: Prices, costs: map<Strategy, Table<real>>,
                  costs': map<Strategy, Table<real>>)
    requires AreCostMeans(costs, runs, prices) && AreCostMeans(costs', runs, prices)
    ensures costs == costs'
  {
    forall s | s in runs
      ensures costs[s] == costs'[s]
    {
      CostMeansUnique(costs[s], costs'[s], runs[s], prices);
    }
  }

  // ----- Over the runs

  lemma KeyOfMeans(m: Table<real>, runs: seq<Run>, failed: map<QueryId, set<Key>>, key: Key)
    requires IsMeansOfRuns(m, runs, failed) && key in m
    requires forall q :: q in failed ==> forall k :: k in failed[q] ==> IsMetric(k)
    ensures IsMetric(key)
  {
    var q :| q in m[key];
    assert QueryValues(runs, failed, key, q) != [];
    ValueIsMetric(runs, Filled(failed, q), key, q);
  }

  lemma FailedAreMetrics(runs: map<Strategy, seq<Run>>, s: Strategy)
    requires s in runs
    ensures forall q :: q in FailedMap(runs, s) ==> forall k :: k in FailedMap(runs, s)[q] ==> IsMetric(k)
  {
    forall q | q in FailedMap(runs, s)
      ensures forall k :: k in FailedMap(runs, s)[q] ==> IsMetric(k)
    {
      ScoredAreMetrics(runs, q);
    }
  }

  lemma KeyOfCosts(m: Table<real>, runs: seq<Run>, prices: Prices, key: Key)
    requires IsCostMeans(m, runs, prices) && key in m
    ensures key in COST_MEASURES
  {
    var q :| q in m[key];
    assert CostValues(runs, prices, key, q) != [];
    CostKey(runs, prices, key, q);
  }

  /** The families of the metrics are not those of the cost measures. */
  lemma MetricIsNoCost(key: Key)
    requires IsMetric(key)
    ensures key !in COST_MEASURES
  {
  }

  lemma {:induction false} MeasuredKey(results: seq<Answer>, prices: Prices, key: Key, q: QueryId)
    requires MeasureValues(results, prices, key, q) != []
    ensures key in COST_MEASURES
  {
    var n := |results| - 1;
    if MeasureValues(results[..n], prices, key, q) != [] {
      MeasuredKey(results[..n], prices, key, q);
    } else {
      HasMeasure(results[n], prices, key);
    }
  }

  lemma {:induction false} CostKey(runs: seq<Run>, prices: Prices, key: Key, q: QueryId)
    requires CostValues(runs, prices, key, q) != []
    ensures key in COST_MEASURES
  {
    var n := |runs| - 1;
    if CostValues(runs[..n], prices, key, q) != [] {
      CostKey(runs[..n], prices, key, q);
    } else {
      MeasuredKey(runs[n].results, prices, key, q);
    }
  }

  /** No key is a metric's and a cost measure's, over any strategies. */
  lemma FamiliesDiffer(runs: map<Strategy, seq<Run>>, prices: Prices, means: map<Strategy, Table<real>>,
                       costs: map<Strategy, Table<real>>, s: Strategy, t: Strategy, key: Key)
    requires AreMetricMeans(means, runs) && AreCostMeans(costs, runs, prices) && s in runs && t in runs
    ensures key !in means[s] || key !in costs[t]
  {
    if key in means[s] && key in costs[t] {
      FailedAreMetrics(runs, s);
      KeyOfMeans(means[s], runs[s], FailedMap(runs, s), key);
      KeyOfCosts(costs[t], runs[t], prices, key);
      MetricIsNoCost(key);
    }
  }

  /** What the rows of a key read, of the baseline and of a strategy, when it is a key of these tables. */
  ghost predicate Reads(rows: seq<Row>, s: Strategy, baseline: Strategy, key: Key, tables: map<Strategy, Table<real>>)
    requires s in tables && baseline in tables
  {
    IsRowView(RowsFor(rows, s, key), s, baseline, key, ColumnAt(tables[baseline], key), ColumnAt(tables[s], key))
  }

  /** The rows of a metric read its own means, no cost measure being written over them; those of a cost measure, its own. */
  lemma RowsReadTheirTable(runs: map<Strategy, seq<Run>>, order: seq<Strategy>, prices: Prices,
                           means: map<Strategy, Table<real>>, costs: map<Strategy, Table<real>>, rows: seq<Row>,
                           s: Strategy, key: Key)
    requires AreStrategies(order, runs) && AreMetricMeans(means, runs) && AreCostMeans(costs, runs, prices)
    requires AreRowsOf(rows, order, means, costs) && s in order[1..] && s in runs && order[0] in runs
    ensures key in means[order[0]] ==> Reads(rows, s, order[0], key, means)
    ensures key in costs[order[0]] ==> Reads(rows, s, order[0], key, costs)
  {
    var baseline := order[0];
    var values := Together(means, costs);
    assert ViewsKey(rows, s, baseline, key, values[baseline], values[s]);
    FamiliesDiffer(runs, prices, means, costs, baseline, baseline, key);
    FamiliesDiffer(runs, prices, means, costs, baseline, s, key);
    FamiliesDiffer(runs, prices, means, costs, s, baseline, key);
  }

  /** A key of one side's tables only: its rows state no difference. */
  lemma OneSidedRows(runs: map<Strategy, seq<Run>>, order: seq<Strategy>, means: map<Strategy, Table<real>>,
                     costs: map<Strategy, Table<real>>, rows: seq<Row>, s: Strategy, key: Key)
    requires AreStrategies(order, runs) && AreRowsOf(rows, order, means, costs) && s in order[1..] && s in means
    requires key !in means[order[0]] && key !in costs[order[0]]
    ensures StatesNone(RowsFor(rows, s, key))
  {
    var baseline := order[0];
    var values := Together(means, costs);
    assert ViewsKey(rows, s, baseline, key, values[baseline], values[s]);
    assert ColumnAt(values[baseline], key) == map[];
    RowStatesDifference(RowsFor(rows, s, key), s, baseline, key, map[], ColumnAt(values[s], key));
  }

  ghost predicate StatesNone(rows: seq<Row>) {
    forall i :: 0 <= i < |rows| ==> rows[i].delta.None?
  }

  /** The deltas of a pair of tables, and the rows that read them. */
  lemma TableAgrees(own: seq<Row>, s: Strategy, baseline: Strategy, key: Key, base: Table<real>, other: Table<real>,
                    deltas: map<Key, Delta>, skipped: set<Key>)
    requires IsRowView(own, s, baseline, key, ColumnAt(base, key), ColumnAt(other, key))
    requires AreDeltas(deltas, base, other, skipped)
    ensures key in deltas ==> TellTheSame(own, deltas[key])
    ensures key !in deltas && key !in skipped ==> StatesNone(own)
  {
    if key in deltas {
      RowsTellTheDelta(own, s, baseline, key, ColumnAt(base, key), ColumnAt(other, key), deltas[key]);
    } else if key !in skipped {
      assert ColumnAt(base, key).Keys * ColumnAt(other, key).Keys == {};
      RowStatesDifference(own, s, baseline, key, ColumnAt(base, key), ColumnAt(other, key));
    }
  }

  /** What both views say of one strategy's measure. */
  ghost predicate ViewsAgree(rows: seq<Row>, metricDeltas: map<Key, Delta>, costDeltas: map<Key, Delta>,
                             skipped: set<Key>, s: Strategy, key: Key) {
    var own := RowsFor(rows, s, key);
    && (key in metricDeltas ==> TellTheSame(own, metricDeltas[key]))
    && (key in costDeltas ==> TellTheSame(own, costDeltas[key]))
    && !(key in metricDeltas && key in costDeltas)
    && (key !in metricDeltas && key !in costDeltas && key !in skipped ==> StatesNone(own))
  }

  lemma KeyAgrees(runs: map<Strategy, seq<Run>>, order: seq<Strategy>, prices: Prices, unmetered: set<Strategy>,
                  means: map<Strategy, Table<real>>, costs: map<Strategy, Table<real>>, rows: seq<Row>,
                  metricDeltas: map<Key, Delta>, costDeltas: map<Key, Delta>, s: Strategy, key: Key)
    requires AreStrategies(order, runs) && AreMetricMeans(means, runs) && AreCostMeans(costs, runs, prices)
    requires AreRowsOf(rows, order, means, costs) && s in order[1..] && s in runs && order[0] in runs
    requires AreDeltas(metricDeltas, means[order[0]], means[s], Skipped(unmetered, order[0], s))
    requires AreDeltas(costDeltas, costs[order[0]], costs[s], Skipped(unmetered, order[0], s))
    ensures ViewsAgree(rows, metricDeltas, costDeltas, Skipped(unmetered, order[0], s), s, key)
  {
    var own, skipped := RowsFor(rows, s, key), Skipped(unmetered, order[0], s);
    RowsReadTheirTable(runs, order, prices, means, costs, rows, s, key);
    FamiliesDiffer(runs, prices, means, costs, order[0], order[0], key);
    if key in means[order[0]] {
      TableAgrees(own, s, order[0], key, means[order[0]], means[s], metricDeltas, skipped);
    } else if key in costs[order[0]] {
      TableAgrees(own, s, order[0], key, costs[order[0]], costs[s], costDeltas, skipped);
    } else {
      OneSidedRows(runs, order, means, costs, rows, s, key);
    }
  }

  /**
   * The two views of one comparison agree, over any runs: for every strategy but the first, each
   * metric's and each cost measure's delta is told the same by the rows of that measure, and rows
   * without a delta state no difference, unless the delta is the one left out for its prices.
   */
  method TwoViewsAgree(runs: map<Strategy, seq<Run>>, order: seq<Strategy>, prices: Prices, unmetered: set<Strategy>,
                       settings: Settings)
    returns (metricDeltas: map<Strategy, map<Key, Delta>>, costDeltas: map<Strategy, map<Key, Delta>>, rows: seq<Row>)
    requires AreStrategies(order, runs) && DrawsEnough(settings)
    ensures metricDeltas.Keys == costDeltas.Keys == (set s | s in order[1..])
    ensures forall s, key :: s in order[1..] ==>
      ViewsAgree(rows, metricDeltas[s], costDeltas[s], Skipped(unmetered, order[0], s), s, key)
  {
    var means := MetricTables(runs, order);
    var costs := CostTables(runs, order, prices);
    metricDeltas := DeltasVsBaseline(means, order, unmetered, settings);
    costDeltas := DeltasVsBaseline(costs, order, unmetered, settings);
    rows := PerQueryRows(runs, order, prices);
    assert AreRowsOf(rows, order, means, costs);
    forall s, key | s in order[1..]
      ensures ViewsAgree(rows, metricDeltas[s], costDeltas[s], Skipped(unmetered, order[0], s), s, key)
    {
      assert s in metricDeltas && s in costDeltas;
      KeyAgrees(runs, order, prices, unmetered, means, costs, rows, metricDeltas[s], costDeltas[s], s, key);
    }
  }
}
