// The run that shows what the gates' counters miss: a USD gate that passes although an answer of
// an unpriced model has no USD.
module UnpricedAnswers {
  import opened Options
  import opened Comparison
  import opened Costs
  import opened CostGates
  import opened Deltas
  import opened Listings
  import opened PairedComparison
  import opened Reals
  import opened RowViews
  import Gates
  import Multiplicity

  // ----- n answers by a priced model on both sides, and one more by a model of no price

  const ONE_CALL := Counts(1, 100, 10, 0, 0, 0, 0)
  const PRICES: Prices := map["priced" := Price(Some(1.0), Some(5.0), None, None, None)]
  const ORDER: seq<Strategy> := ["base", "other"]

  function Id(n: nat): (id: QueryId)
    ensures |id| == n
  {
    if n == 0 then "" else Id(n - 1) + "q"
  }

  function AnswerOf(model: string, n: nat): Answer {
    Answer(Id(n), false, false, false, Some(Usage(ONE_CALL, [ModelCounts(model, ONE_CALL)])), Some(1.0))
  }

  function PricedAnswers(n: nat): (answers: seq<Answer>)
    ensures |answers| == n
    ensures forall a :: a in answers ==> !a.error && a.usage.Some? && a.responseTime.Some?
  {
    if n == 0 then [] else PricedAnswers(n - 1) + [AnswerOf("priced", n - 1)]
  }

  function BaseAnswers(n: nat): seq<Answer> {
    PricedAnswers(n + 1)
  }

  function OtherAnswers(n: nat): seq<Answer> {
    PricedAnswers(n) + [AnswerOf("unpriced", n)]
  }

  /** The two sides: the same answers, but for the model of the last one. */
  function Sides(n: nat): (runs: map<Strategy, seq<Run>>)
    ensures AreStrategies(ORDER, runs)
  {
    map["base" := [Run([], BaseAnswers(n))], "other" := [Run([], OtherAnswers(n))]]
  }

  lemma UnpricedHasNoUsd(n: nat)
    ensures !IsPricedAnswer(AnswerOf("unpriced", n), PRICES)
    ensures USD_MEASURE !in AnswerMeasures(AnswerOf("unpriced", n), PRICES)
  {
    var models := AnswerOf("unpriced", n).usage.value.byModel;
    assert ModelCounts("unpriced", ONE_CALL) in models && IsUnpriced(ModelCounts("unpriced", ONE_CALL), PRICES);
    HasMeasure(AnswerOf("unpriced", n), PRICES, USD_MEASURE);
  }

  // ----- Its counters

  lemma {:induction false} NoErrors(results: seq<Answer>)
    requires forall a :: a in results ==> !a.error
    ensures ErrorsIn(results) == 0
  {
    if results != [] {
      NoErrors(results[..|results| - 1]);
    }
  }

  lemma SideIsClean(results: seq<Answer>)
    requires forall a :: a in results ==> !a.error && a.usage.Some? && a.responseTime.Some?
    ensures AllHave([Run([], results)], PRICES, LLM_CALLS) && Errors([Run([], results)]) == 0
  {
    var runs := [Run([], results)];
    NoErrors(results);
    assert runs[..0] == [];
    assert Errors(runs) == ErrorsIn(results);
    forall a | a in results
      ensures Has(a, PRICES, LLM_CALLS)
    {
      HasMeasure(a, PRICES, LLM_CALLS);
    }
  }

  lemma SidesAreClean(n: nat)
    ensures AllHave(Sides(n)["base"], PRICES, LLM_CALLS) && Errors(Sides(n)["base"]) == 0
    ensures AllHave(Sides(n)["other"], PRICES, LLM_CALLS) && Errors(Sides(n)["other"]) == 0
    ensures AnswerOf("unpriced", n) in OtherAnswers(n)
  {
    SideIsClean(BaseAnswers(n));
    SideIsClean(OtherAnswers(n));
  }

  // ----- Its USD values

  /** The USD values an answer adds: none or one. */
  ghost predicate HasUsd(a: Answer, values: seq<real>) {
    ValueOf(AnswerMeasures(a, PRICES), USD_MEASURE) == values
  }

  /** Every call of the priced model costs the same. */
  lemma PricedUsd() returns (x: real)
    ensures forall n: nat :: HasUsd(AnswerOf("priced", n), [x])
  {
    var usage := Usage(ONE_CALL, [ModelCounts("priced", ONE_CALL)]);
    assert IsPriced(usage, PRICES);
    x := CostUsd(usage, PRICES).value;
    assert "priced" in PRICES;
    forall n: nat
      ensures HasUsd(AnswerOf("priced", n), [x])
    {
      assert AnswerOf("priced", n).usage == Some(usage);
    }
  }

  function Ids(n: nat): (ids: set<QueryId>)
    ensures |ids| == n && forall q :: q in ids ==> |q| < n
  {
    if n == 0 then {} else Ids(n - 1) + {Id(n - 1)}
  }

  /** The same value on each query. */
  function Flat(ids: set<QueryId>, value: real): map<QueryId, real> {
    map q | q in ids :: value
  }

  lemma OneMoreAnswer(results: seq<Answer>, a: Answer, values: seq<real>, q: QueryId)
    requires HasUsd(a, values)
    ensures MeasureValues(results + [a], PRICES, USD_MEASURE, q)
      == MeasureValues(results, PRICES, USD_MEASURE, q) + if a.query == q then values else []
  {
    assert (results + [a])[..|results|] == results;
  }

  lemma {:induction false} PricedValues(n: nat, x: real, q: QueryId)
    requires forall k: nat :: HasUsd(AnswerOf("priced", k), [x])
    ensures MeasureValues(PricedAnswers(n), PRICES, USD_MEASURE, q) == if q in Ids(n) then [x] else []
  {
    if n > 0 {
      PricedValues(n - 1, x, q);
      var last := AnswerOf("priced", n - 1);
      assert HasUsd(last, [x]);
      OneMoreAnswer(PricedAnswers(n - 1), last, [x], q);
    }
  }

  /** The answers to just these queries have a USD value, the same one. */
  ghost predicate AreFlat(results: seq<Answer>, ids: set<QueryId>, x: real) {
    forall q :: MeasureValues(results, PRICES, USD_MEASURE, q) == if q in ids then [x] else []
  }

  lemma BaseIsFlat(n: nat, x: real)
    requires forall k: nat :: HasUsd(AnswerOf("priced", k), [x])
    ensures AreFlat(BaseAnswers(n), Ids(n + 1), x)
  {
    forall q
      ensures MeasureValues(BaseAnswers(n), PRICES, USD_MEASURE, q) == if q in Ids(n + 1) then [x] else []
    {
      PricedValues(n + 1, x, q);
    }
  }

  lemma OtherIsFlat(n: nat, x: real)
    requires forall k: nat :: HasUsd(AnswerOf("priced", k), [x])
    ensures AreFlat(OtherAnswers(n), Ids(n), x)
  {
    var last := AnswerOf("unpriced", n);
    UnpricedHasNoUsd(n);
    assert HasUsd(last, []);
    forall q
      ensures MeasureValues(OtherAnswers(n), PRICES, USD_MEASURE, q) == if q in Ids(n) then [x] else []
    {
      PricedValues(n, x, q);
      OneMoreAnswer(PricedAnswers(n), last, [], q);
    }
  }

  lemma OneRun(results: seq<Answer>, q: QueryId)
    ensures CostValues([Run([], results)], PRICES, USD_MEASURE, q) == MeasureValues(results, PRICES, USD_MEASURE, q)
  {
    assert [Run([], results)][..0] == [];
  }

  lemma OneMean(x: real)
    ensures Mean([x]) == x
  {
    assert Sum([x]) == x;
  }

  /** Where a table of means holds one value, or none. */
  lemma MeansAt(m: Table<real>, runs: seq<Run>, prices: Prices, key: Key, q: QueryId, x: real)
    requires IsCostMeans(m, runs, prices)
    ensures CostValues(runs, prices, key, q) == [] ==> key !in m || q !in m[key]
    ensures CostValues(runs, prices, key, q) == [x] ==> key in m && q in m[key] && m[key][q] == x
  {
    OneMean(x);
  }

  lemma FlatAt(m: Table<real>, results: seq<Answer>, ids: set<QueryId>, x: real, q: QueryId)
    requires IsCostMeans(m, [Run([], results)], PRICES) && AreFlat(results, ids, x)
    ensures (USD_MEASURE in m && q in m[USD_MEASURE]) <==> q in ids
    ensures q in ids ==> m[USD_MEASURE][q] == x
  {
    OneRun(results, q);
    MeansAt(m, [Run([], results)], PRICES, USD_MEASURE, q, x);
  }

  /** The column of a strategy run once, with the same value on each measured query. */
  lemma FlatColumn(m: Table<real>, results: seq<Answer>, ids: set<QueryId>, x: real)
    requires IsCostMeans(m, [Run([], results)], PRICES) && AreFlat(results, ids, x) && ids != {}
    ensures ColumnAt(m, USD_MEASURE) == Flat(ids, x)
  {
    forall q: QueryId
      ensures (USD_MEASURE in m && q in m[USD_MEASURE]) <==> q in ids
      ensures q in ids ==> m[USD_MEASURE][q] == x
    {
      FlatAt(m, results, ids, x, q);
    }
  }

  // ----- Its delta

  lemma {:induction false} ZeroTotal(m: map<QueryId, real>)
    requires forall q :: q in m ==> m[q] == 0.0
    ensures Total(m) == 0.0
  {
    if m != map[] {
      var q :| q in m;
      TotalSplits(m, q);
      ZeroTotal(m - {q});
    }
  }

  lemma FlatDifference(n: nat, x: real)
    requires n > 0
    ensures Differences(Flat(Ids(n + 1), x), Flat(Ids(n), x)) == Flat(Ids(n), 0.0)
    ensures |Flat(Ids(n), 0.0)| == n && Total(Flat(Ids(n), 0.0)) == 0.0
    ensures OneSided(Flat(Ids(n + 1), x), Flat(Ids(n), x)) == {Id(n)}
    ensures Flat(Ids(n + 1), x).Keys * Flat(Ids(n), x).Keys != {}
  {
    var more, fewer := Flat(Ids(n + 1), x), Flat(Ids(n), x);
    assert more.Keys == Ids(n) + {Id(n)} && fewer.Keys == Ids(n) && Id(n) !in Ids(n);
    assert Flat(Ids(n), 0.0).Keys == Ids(n);
    ZeroTotal(Flat(Ids(n), 0.0));
    assert Id(n - 1) in Ids(n);
  }

  lemma ZeroMean(d: Delta)
    requires d.perQuery != map[] && Total(d.perQuery) == 0.0 && d.meanDelta == Total(d.perQuery) / |d.perQuery| as real
    ensures d.meanDelta == 0.0
  {
  }

  /** Between these two columns there are n pairs without a difference, and one query of the baseline alone. */
  lemma FlatDelta(n: nat, x: real, d: Delta)
    requires n > 0 && IsDelta(d, Flat(Ids(n + 1), x), Flat(Ids(n), x))
    ensures d.pairs == n && d.unpaired == 1 && d.meanDelta == 0.0
  {
    FlatDifference(n, x);
    ZeroMean(d);
  }

  /** These runs' USD delta. */
  lemma UsdDelta(n: nat, settings: Settings, metricDeltas: map<Strategy, map<Key, Delta>>,
                 costDeltas: map<Strategy, map<Key, Delta>>)
    requires n > 0 && DrawsEnough(settings)
    requires AreDeltasOf(metricDeltas, costDeltas, Sides(n), ORDER, PRICES, {}, settings)
    ensures "other" in costDeltas && USD_MEASURE in costDeltas["other"]
    ensures var d := costDeltas["other"][USD_MEASURE]; d.pairs == n && d.unpaired == 1 && d.meanDelta == 0.0
  {
    assert ORDER[1..] == ["other"];
    var _, costs := TablesBehind(Sides(n), ORDER, PRICES, {}, settings, metricDeltas, costDeltas, "other");
    var x := PricedUsd();
    BaseIsFlat(n, x);
    OtherIsFlat(n, x);
    assert Id(n) in Ids(n + 1) && Id(n - 1) in Ids(n);
    FlatColumn(costs["base"], BaseAnswers(n), Ids(n + 1), x);
    FlatColumn(costs["other"], OtherAnswers(n), Ids(n), x);
    FlatEntry(n, x, costDeltas["other"], costs["base"], costs["other"]);
  }

  lemma FlatEntry(n: nat, x: real, deltas: map<Key, Delta>, base: Table<real>, other: Table<real>)
    requires n > 0 && AreDeltas(deltas, base, other, {})
    requires ColumnAt(base, USD_MEASURE) == Flat(Ids(n + 1), x) && ColumnAt(other, USD_MEASURE) == Flat(Ids(n), x)
    ensures USD_MEASURE in deltas
    ensures var d := deltas[USD_MEASURE]; d.pairs == n && d.unpaired == 1 && d.meanDelta == 0.0
  {
    FlatDifference(n, x);
    FlatDelta(n, x, deltas[USD_MEASURE]);
  }

  // ----- Its gate

  lemma OneRowPasses(c: Gates.Comparison, row: Multiplicity.StrategyDeltas, gate: Gates.Gate)
    requires c.rows == [row] && Gates.Passes(c, row, gate)
    ensures Gates.AllLines(c, [gate], |c.rows|) == []
  {
    Gates.RowIsClear(c, row, [gate], 1);
  }

  /** What a USD gate reads of these runs. */
  lemma UsdIsRead(n: nat, settings: Settings, c: Gates.Comparison, metricDeltas: map<Strategy, map<Key, Delta>>,
                  costDeltas: map<Strategy, map<Key, Delta>>)
    requires n > 0 && DrawsEnough(settings)
    requires AreDeltasOf(metricDeltas, costDeltas, Sides(n), ORDER, PRICES, {}, settings)
    requires Reports(c, Sides(n), ORDER, PRICES, metricDeltas, costDeltas)
    ensures |c.rows| == 1 && c.rows == [c.rows[0]] && c.rows[0].strategy == "other"
    ensures var found := Gates.DeltaFor(c.rows[0], Text(USD_MEASURE));
      && found.Some? && found.value.stats.Paired?
      && found.value.stats.delta.pairs == n && found.value.stats.delta.unpaired == 1
      && found.value.stats.delta.meanDelta == 0.0
  {
    OneRow(c, Sides(n), ORDER, PRICES, metricDeltas, costDeltas);
    UsdDelta(n, settings, metricDeltas, costDeltas);
    CostGateReads(c, Sides(n), ORDER, PRICES, {}, settings, metricDeltas, costDeltas, 0, USD_MEASURE);
  }

  lemma UnpricedPasses(n: nat, c: Gates.Comparison, row: Multiplicity.StrategyDeltas, gate: Gates.Gate)
    requires CountsRuns(c, Sides(n), PRICES) && Gates.BaselineOf(c, "other") == "base"
    requires c.rows == [row] && row.strategy == "other" && gate.measure == Text(USD_MEASURE)
    requires Gates.DeltaFor(row, gate.measure).Some? && Gates.Clears(Gates.DeltaFor(row, gate.measure).value, gate)
    ensures Gates.AllLines(c, [gate], |c.rows|) == []
  {
    SidesAreClean(n);
    UnpricedHasNoUsd(n);
    UnpricedAnswerPasses(c, Sides(n), PRICES, row, gate, AnswerOf("unpriced", n));
    OneRowPasses(c, row, gate);
  }

  /**
   * The comparison of these runs has a USD delta of 0 over n queries, the unpriced answer left out,
   * and a gate on it that 0 does not breach finds nothing, although that answer has no USD.
   */
  lemma UnpricedRun(n: nat, settings: Settings, c: Gates.Comparison, metricDeltas: map<Strategy, map<Key, Delta>>,
                    costDeltas: map<Strategy, map<Key, Delta>>, gate: Gates.Gate)
    requires n >= Gates.MIN_GATE_PAIRS && DrawsEnough(settings)
    requires AreDeltasOf(metricDeltas, costDeltas, Sides(n), ORDER, PRICES, {}, settings)
    requires Reports(c, Sides(n), ORDER, PRICES, metricDeltas, costDeltas) && c.closedBook == {}
    requires gate.measure == Text(USD_MEASURE) && gate.stat == Gates.MeanDelta && !Gates.Holds(gate.op, 0.0, gate.value)
    ensures Gates.AllLines(c, [gate], |c.rows|) == []
    ensures var a := AnswerOf("unpriced", n); a in OtherAnswers(n) && !Has(a, PRICES, USD_MEASURE)
  {
    UsdIsRead(n, settings, c, metricDeltas, costDeltas);
    SidesAreClean(n);
    UnpricedHasNoUsd(n);
    UnpricedPasses(n, c, c.rows[0], gate);
  }
}
