// What the regression gates' counters say of the answers: when a cost gate without a breach has
// read every answer, and the one measure that can be missing unnoticed.
module CostGates {
  import opened Options
  import opened Comparison
  import opened Costs
  import opened Deltas
  import Gates
  import Multiplicity

  // ----- Keys as the gates write them

  /** `family/name`. */
  function Text(key: Key): string {
    key.family + "/" + key.name
  }

  lemma UpToSlash(f: string, n: string, f': string, n': string)
    requires '/' !in f && '/' !in f' && f + "/" + n == f' + "/" + n'
    ensures f == f' && n == n'
  {
    var s, s' := f + "/" + n, f' + "/" + n';
    assert s[|f|] == '/' && s'[|f'|] == '/';
    assert forall i :: 0 <= i < |f| ==> s[i] == f[i];
    assert forall i :: 0 <= i < |f'| ==> s'[i] == f'[i];
    assert s[..|f|] == f && s'[..|f'|] == f';
    assert s[|f| + 1..] == n && s'[|f'| + 1..] == n';
  }

  lemma FamilyHasNoSlash(f: string)
    requires f in EVALUATORS
    ensures '/' !in f
  {
    if f == "langchain" {
    } else if f == "ragas" {
    } else if f == "graph_aware" {
    } else if f == "retrieval" {
    } else if f == "answer_match" {
    } else {
      assert f == "assertion";
    }
  }

  /** Two metrics of evaluators never share a text. */
  lemma TextIsUnique(k: MetricKey, l: MetricKey)
    requires Text(k) == Text(l)
    ensures k == l
  {
    FamilyHasNoSlash(k.family);
    FamilyHasNoSlash(l.family);
    UpToSlash(k.family, k.name, l.family, l.name);
  }

  // ----- Counting

  predicate Has(a: Answer, prices: Prices, key: Key) {
    key in AnswerMeasures(a, prices)
  }

  function WithIn(results: seq<Answer>, prices: Prices, key: Key): nat {
    if results == [] then 0 else
      var n := |results| - 1;
      WithIn(results[..n], prices, key) + if Has(results[n], prices, key) then 1 else 0
  }

  /** How many answers have the measure. */
  function With(runs: seq<Run>, prices: Prices, key: Key): nat {
    if runs == [] then 0 else
      With(runs[..|runs| - 1], prices, key) + WithIn(runs[|runs| - 1].results, prices, key)
  }

  function AnswerCount(runs: seq<Run>): nat {
    if runs == [] then 0 else AnswerCount(runs[..|runs| - 1]) + |runs[|runs| - 1].results|
  }

  function ErrorsIn(results: seq<Answer>): nat {
    if results == [] then 0 else
      var n := |results| - 1;
      ErrorsIn(results[..n]) + if results[n].error then 1 else 0
  }

  /** How many answers failed. */
  function Errors(runs: seq<Run>): nat {
    if runs == [] then 0 else Errors(runs[..|runs| - 1]) + ErrorsIn(runs[|runs| - 1].results)
  }

  function FailingIn(reports: seq<Report>, key: MetricKey): nat {
    if reports == [] then 0 else
      var n := |reports| - 1;
      FailingIn(reports[..n], key) + if key in reports[n].failed then 1 else 0
  }

  /** How many reports could not score the metric. */
  function Failing(runs: seq<Run>, key: MetricKey): nat {
    if runs == [] then 0 else Failing(runs[..|runs| - 1], key) + FailingIn(runs[|runs| - 1].reports, key)
  }

  lemma AllHaveSplits(runs: seq<Run>, prices: Prices, key: Key)
    requires runs != []
    ensures AllHave(runs, prices, key) <==>
      && AllHave(runs[..|runs| - 1], prices, key)
      && forall a :: a in runs[|runs| - 1].results ==> Has(a, prices, key)
  {
    assert runs == runs[..|runs| - 1] + [runs[|runs| - 1]];
  }

  lemma {:induction false} WithAtMostAll(runs: seq<Run>, prices: Prices, key: Key)
    ensures With(runs, prices, key) <= AnswerCount(runs)
    ensures With(runs, prices, key) == AnswerCount(runs) <==> AllHave(runs, prices, key)
  {
    if runs != [] {
      WithAtMostAll(runs[..|runs| - 1], prices, key);
      WithInAtMostAll(runs[|runs| - 1].results, prices, key);
      AllHaveSplits(runs, prices, key);
    }
  }

  lemma {:induction false} WithInAtMostAll(results: seq<Answer>, prices: Prices, key: Key)
    ensures WithIn(results, prices, key) <= |results|
    ensures WithIn(results, prices, key) == |results| <==> forall a :: a in results ==> Has(a, prices, key)
  {
    if results != [] {
      var n := |results| - 1;
      WithInAtMostAll(results[..n], prices, key);
      assert results == results[..n] + [results[n]];
    }
  }

  /** Every answer of every run has the measure. */
  ghost predicate AllHave(runs: seq<Run>, prices: Prices, key: Key) {
    forall run :: run in runs ==> forall a :: a in run.results ==> Has(a, prices, key)
  }

  function AnswersFor(runs: seq<Run>, q: QueryId): nat {
    if runs == [] then 0 else AnswersFor(runs[..|runs| - 1], q) + |AnswersTo(runs[|runs| - 1].results, q)|
  }

  lemma {:induction false} ValuesOfAnswers(results: seq<Answer>, prices: Prices, key: Key, q: QueryId)
    ensures |MeasureValues(results, prices, key, q)| <= |AnswersTo(results, q)|
    ensures |MeasureValues(results, prices, key, q)| == |AnswersTo(results, q)|
      <==> forall a :: a in results && a.query == q ==> Has(a, prices, key)
  {
    if results != [] {
      var n := |results| - 1;
      ValuesOfAnswers(results[..n], prices, key, q);
      assert results == results[..n] + [results[n]];
    }
  }

  lemma {:induction false} ValuesOfRuns(runs: seq<Run>, prices: Prices, key: Key, q: QueryId)
    ensures |CostValues(runs, prices, key, q)| <= AnswersFor(runs, q)
    ensures |CostValues(runs, prices, key, q)| == AnswersFor(runs, q)
      <==> forall run :: run in runs ==> forall a :: a in run.results && a.query == q ==> Has(a, prices, key)
  {
    if runs != [] {
      var n := |runs| - 1;
      ValuesOfRuns(runs[..n], prices, key, q);
      ValuesOfAnswers(runs[n].results, prices, key, q);
      assert runs == runs[..n] + [runs[n]];
    }
  }

  /** A measure's means are over every answer of every query exactly when every answer has the measure. */
  lemma MeansReadEveryAnswer(runs: seq<Run>, prices: Prices, key: Key)
    ensures AllHave(runs, prices, key) <==> forall q :: |CostValues(runs, prices, key, q)| == AnswersFor(runs, q)
  {
    forall q
      ensures |CostValues(runs, prices, key, q)| == AnswersFor(runs, q)
        <==> forall run :: run in runs ==> forall a :: a in run.results && a.query == q ==> Has(a, prices, key)
    {
      ValuesOfRuns(runs, prices, key, q);
    }
    if !AllHave(runs, prices, key) {
      var run: Run :| run in runs && exists a :: a in run.results && !Has(a, prices, key);
      var a: Answer :| a in run.results && !Has(a, prices, key);
      assert |CostValues(runs, prices, key, a.query)| != AnswersFor(runs, a.query);
    }
  }

  /** There are prices, and the answer's usage record has all it needs of them. */
  ghost predicate IsPricedAnswer(a: Answer, prices: Prices) {
    prices != map[] && (a.usage.Some? ==> IsPriced(a.usage.value, prices))
  }

  ghost predicate AllPriced(runs: seq<Run>, prices: Prices) {
    forall run :: run in runs ==> forall a :: a in run.results ==> IsPricedAnswer(a, prices)
  }

  /** A strategy's counters: the answers without usage or latency, and those that failed. */
  ghost function CountersOf(runs: seq<Run>, prices: Prices): Gates.CostStats {
    WithAtMostAll(runs, prices, LLM_CALLS);
    WithAtMostAll(runs, prices, LATENCY_MEASURE);
    Gates.CostStats(AnswerCount(runs) - With(runs, prices, LLM_CALLS),
                    AnswerCount(runs) - With(runs, prices, LATENCY_MEASURE), Errors(runs))
  }

  /** The counting pass over a strategy's answers. */
  method CountCosts(runs: seq<Run>, prices: Prices) returns (stats: Gates.CostStats)
    ensures stats == CountersOf(runs, prices)
  {
    var answers, withUsage, withLatency, failed := 0, 0, 0, 0;
    for i := 0 to |runs|
      invariant answers == AnswerCount(runs[..i]) && failed == Errors(runs[..i])
      invariant withUsage == With(runs[..i], prices, LLM_CALLS) && withLatency == With(runs[..i], prices, LATENCY_MEASURE)
    {
      var results := runs[i].results;
      assert runs[..i + 1][..i] == runs[..i];
      for j := 0 to |results|
        invariant answers == AnswerCount(runs[..i]) + j && failed == Errors(runs[..i]) + ErrorsIn(results[..j])
        invariant withUsage == With(runs[..i], prices, LLM_CALLS) + WithIn(results[..j], prices, LLM_CALLS)
        invariant withLatency == With(runs[..i], prices, LATENCY_MEASURE) + WithIn(results[..j], prices, LATENCY_MEASURE)
      {
        var a := results[j];
        assert results[..j + 1][..j] == results[..j];
        answers := answers + 1;
        if a.error {
          failed := failed + 1;
        }
        if Has(a, prices, LLM_CALLS) {
          withUsage := withUsage + 1;
        }
        if Has(a, prices, LATENCY_MEASURE) {
          withLatency := withLatency + 1;
        }
      }
      assert results[..|results|] == results;
    }
    assert runs[..|runs|] == runs;
    WithAtMostAll(runs, prices, LLM_CALLS);
    WithAtMostAll(runs, prices, LATENCY_MEASURE);
    stats := Gates.CostStats(answers - withUsage, answers - withLatency, failed);
  }

  // ----- The metrics that could not be scored

  function CountAt(counts: map<string, nat>, name: string): nat {
    if name in counts then counts[name] else 0
  }

  /** One report's failed metrics, each counted once. */
  method CountReport(before: map<string, nat>, failed: set<MetricKey>) returns (counts: map<string, nat>)
    ensures forall k: MetricKey :: CountAt(counts, Text(k)) == CountAt(before, Text(k)) + if k in failed then 1 else 0
  {
    counts := before;
    var left := failed;
    while left != {}
      invariant left <= failed
      invariant forall k: MetricKey ::
        CountAt(counts, Text(k)) == CountAt(before, Text(k)) + if k in failed && k !in left then 1 else 0
    {
      var key :| key in left;
      ghost var was := counts;
      counts := counts[Text(key) := CountAt(counts, Text(key)) + 1];
      forall k: MetricKey
        ensures CountAt(counts, Text(k)) == CountAt(was, Text(k)) + if k == key then 1 else 0
      {
        if Text(k) == Text(key) {
          TextIsUnique(k, key);
        }
      }
      left := left - {key};
    }
  }

  /** Per metric, how many reports could not score it. */
  method CountFailing(runs: seq<Run>) returns (counts: map<string, nat>)
    ensures forall k: MetricKey :: CountAt(counts, Text(k)) == Failing(runs, k)
  {
    counts := map[];
    for i := 0 to |runs|
      invariant forall k: MetricKey :: CountAt(counts, Text(k)) == Failing(runs[..i], k)
    {
      var reports := runs[i].reports;
      assert runs[..i + 1][..i] == runs[..i];
      for j := 0 to |reports|
        invariant forall k: MetricKey :: CountAt(counts, Text(k)) == Failing(runs[..i], k) + FailingIn(reports[..j], k)
      {
        assert reports[..j + 1][..j] == reports[..j];
        counts := CountReport(counts, reports[j].failed);
      }
      assert reports[..|reports|] == reports;
    }
    assert runs[..|runs|] == runs;
  }

  // ----- What a gate without a breach has read

  /** The comparison's counters are those of the runs. */
  ghost predicate CountsRuns(c: Gates.Comparison, runs: map<Strategy, seq<Run>>, prices: Prices) {
    && (forall s :: s in runs ==> Gates.StatsOf(c, s) == CountersOf(runs[s], prices))
    && forall s, k: MetricKey :: s in runs ==> Gates.Unscored(c, s, Text(k)) == Failing(runs[s], k)
  }

  lemma MeasureText(key: Key)
    requires key in COST_MEASURES
    ensures Gates.IsCost(Text(key))
    ensures Gates.USAGE <= Text(key) <==> key != LATENCY_MEASURE
  {
    if key == LATENCY_MEASURE {
      assert Text(key) == "latency/" + key.name;
      assert Text(key)[0] == 'l' && Gates.USAGE[0] == 'u';
    } else {
      assert Text(key) == "usage/" + key.name;
    }
  }

  /** When every answer has a usage record, one has a usage measure unless it is USD and the record is not priced. */
  lemma AllHaveIff(runs: seq<Run>, prices: Prices, key: Key)
    requires key in COST_MEASURES && key != LATENCY_MEASURE && AllHave(runs, prices, LLM_CALLS)
    ensures AllHave(runs, prices, key) <==> key != USD_MEASURE || AllPriced(runs, prices)
  {
    forall run, a | run in runs && a in run.results
      ensures Has(a, prices, key) <==> key != USD_MEASURE || IsPricedAnswer(a, prices)
    {
      assert Has(a, prices, LLM_CALLS);
      HasMeasure(a, prices, LLM_CALLS);
      HasMeasure(a, prices, key);
    }
  }

  /** A side whose counter of a cost measure is 0. */
  lemma CounterIsZero(c: Gates.Comparison, runs: map<Strategy, seq<Run>>, prices: Prices, side: Strategy, key: Key)
    requires CountsRuns(c, runs, prices) && side in runs && key in COST_MEASURES
    ensures Gates.Unmeasured(c, side, Text(key)) == 0 <==>
      AllHave(runs[side], prices, if key == LATENCY_MEASURE then LATENCY_MEASURE else LLM_CALLS)
  {
    MeasureText(key);
    WithAtMostAll(runs[side], prices, LLM_CALLS);
    WithAtMostAll(runs[side], prices, LATENCY_MEASURE);
  }

  /** The measure is had by every answer of a strategy and of its baseline. */
  ghost predicate BothHave(c: Gates.Comparison, runs: map<Strategy, seq<Run>>, prices: Prices, s: Strategy, key: Key)
    requires s in runs && Gates.BaselineOf(c, s) in runs
  {
    AllHave(runs[Gates.BaselineOf(c, s)], prices, key) && AllHave(runs[s], prices, key)
  }

  ghost predicate BothPriced(c: Gates.Comparison, runs: map<Strategy, seq<Run>>, prices: Prices, s: Strategy)
    requires s in runs && Gates.BaselineOf(c, s) in runs
  {
    AllPriced(runs[Gates.BaselineOf(c, s)], prices) && AllPriced(runs[s], prices)
  }

  /**
   * When the counters let a cost gate be read, every answer of both sides has the measure
   * exactly when it is not USD, or every usage record of both sides is priced.
   */
  lemma ComparableIsMeasured(c: Gates.Comparison, runs: map<Strategy, seq<Run>>, prices: Prices, s: Strategy, key: Key)
    requires CountsRuns(c, runs, prices) && s in runs && Gates.BaselineOf(c, s) in runs && key in COST_MEASURES
    requires Gates.Comparable(c, s, Text(key))
    ensures BothHave(c, runs, prices, s, key) <==> key != USD_MEASURE || BothPriced(c, runs, prices, s)
    ensures Errors(runs[Gates.BaselineOf(c, s)]) == Errors(runs[s])
  {
    var base := Gates.BaselineOf(c, s);
    MeasureText(key);
    CounterIsZero(c, runs, prices, base, key);
    CounterIsZero(c, runs, prices, s, key);
    if key != LATENCY_MEASURE {
      AllHaveIff(runs[base], prices, key);
      AllHaveIff(runs[s], prices, key);
    }
  }

  /**
   * What a gate run without a breach rests on: over every gated strategy, a gate on a cost measure
   * read every answer of both sides exactly when the measure is not USD or all of them are priced,
   * with as many failures on either side; and a gate on a metric read sides that failed to score it
   * equally often.
   */
  lemma NoBreachMeansMeasured(c: Gates.Comparison, gates: seq<Gates.Gate>, runs: map<Strategy, seq<Run>>, prices: Prices,
                              i: nat, g: nat, key: Key)
    requires CountsRuns(c, runs, prices) && Gates.AllLines(c, gates, |c.rows|) == []
    requires i < |c.rows| && g < |gates| && c.rows[i].strategy !in c.closedBook && gates[g].measure == Text(key)
    requires c.rows[i].strategy in runs && Gates.BaselineOf(c, c.rows[i].strategy) in runs
    ensures key in COST_MEASURES ==>
      && (BothHave(c, runs, prices, c.rows[i].strategy, key)
          <==> key != USD_MEASURE || BothPriced(c, runs, prices, c.rows[i].strategy))
      && Errors(runs[Gates.BaselineOf(c, c.rows[i].strategy)]) == Errors(runs[c.rows[i].strategy])
    ensures key.family in EVALUATORS ==>
      Failing(runs[Gates.BaselineOf(c, c.rows[i].strategy)], key) == Failing(runs[c.rows[i].strategy], key)
  {
    Gates.NoBreachMeansAllPass(c, gates, |c.rows|);
    assert Gates.RowPasses(c, c.rows[i], gates, |gates|);
    var s := c.rows[i].strategy;
    if key in COST_MEASURES {
      ComparableIsMeasured(c, runs, prices, s, key);
    }
    if key.family in EVALUATORS {
      MetricText(key);
    }
  }

  lemma MetricText(key: MetricKey)
    ensures !Gates.IsCost(Text(key))
  {
    FamilyHasNoSlash(key.family);
    if Gates.IsCost(Text(key)) {
      var prefix := if Gates.USAGE <= Text(key) then "usage" else "latency";
      assert Text(key) == prefix + "/" + Text(key)[|prefix| + 1..];
      UpToSlash(key.family, key.name, prefix, Text(key)[|prefix| + 1..]);
      assert false;
    }
  }

  // ----- The missing value nothing counts

  /**
   * The case the counters miss: when every answer has a usage record and both sides failed alike, a
   * gate on USD whose delta clears it passes, although an answer of an unpriced model has no USD.
   */
  lemma UnpricedAnswerPasses(c: Gates.Comparison, runs: map<Strategy, seq<Run>>, prices: Prices,
                             row: Multiplicity.StrategyDeltas, gate: Gates.Gate, a: Answer)
    requires CountsRuns(c, runs, prices) && row.strategy in runs && Gates.BaselineOf(c, row.strategy) in runs
    requires BothHave(c, runs, prices, row.strategy, LLM_CALLS)
    requires Errors(runs[Gates.BaselineOf(c, row.strategy)]) == Errors(runs[row.strategy])
    requires gate.measure == Text(USD_MEASURE)
    requires Gates.DeltaFor(row, gate.measure).Some? && Gates.Clears(Gates.DeltaFor(row, gate.measure).value, gate)
    requires exists run :: run in runs[row.strategy] && a in run.results
    requires !IsPricedAnswer(a, prices)
    ensures Gates.Passes(c, row, gate) && !Has(a, prices, USD_MEASURE)
    ensures !BothHave(c, runs, prices, row.strategy, USD_MEASURE)
  {
    var base := Gates.BaselineOf(c, row.strategy);
    MeasureText(USD_MEASURE);
    CounterIsZero(c, runs, prices, base, USD_MEASURE);
    CounterIsZero(c, runs, prices, row.strategy, USD_MEASURE);
    HasMeasure(a, prices, USD_MEASURE);
  }
}
