// Per-query means with failed answers filled in, and what a failed answer changes in them.
module Comparison {
  import opened Reals
  import opened Options

  // ----- Runs

  type QueryId = string
  type Strategy = string

  /** `family/name`: a metric of an evaluator, or a cost measure. */
  datatype Key = Key(family: string, name: string)

  /** The evaluators, as the family of a metric's key names them. */
  const EVALUATORS: set<string> := {"langchain", "ragas", "graph_aware", "retrieval", "answer_match", "assertion"}

  type MetricKey = k: Key | k.family in EVALUATORS witness Key("retrieval", "recall_at_k")

  datatype Score = Score(key: MetricKey, value: real)

  /** One evaluator's report on one answer: its scores, and the metrics it could not score. */
  datatype Report = Report(query: QueryId, scores: seq<Score>, failed: set<MetricKey>)

  /** What the calls to one model used. */
  datatype Counts = Counts(llmCalls: nat, inputTokens: nat, outputTokens: nat, cacheRead: nat, cacheWrite: nat,
                           rerankCalls: nat, rerankUnits: nat)

  datatype ModelCounts = ModelCounts(model: string, counts: Counts)

  /** A usage record: the calls of one answer, in all and model by model. */
  datatype Usage = Usage(total: Counts, byModel: seq<ModelCounts>)

  /** An answer; results saved without usage records or latencies have none. */
  datatype Answer = Answer(query: QueryId, error: bool, unanswerable: bool, abstained: bool,
                           usage: Option<Usage>, responseTime: Option<real>)

  datatype Run = Run(reports: seq<Report>, results: seq<Answer>)

  const ABSTENTION_RECALL := Key("abstention", "recall")
  const UNFILLED: set<string> :=
    {"answer_length", "attributable_fraction", "assertion_contradiction_rate", "negative_assertion_violation_rate"}

  // ----- Which metrics a failed answer counts 0 on

  /** The scores a run reported for a query, the unfilled ones left out. */
  function ReportedKeys(run: Run, q: QueryId): set<Key> {
    set report, score | report in run.reports && report.query == q && score in report.scores
        && score.key.name !in UNFILLED
      :: score.key
  }

  /** Per query, the scores any run of any strategy reported for it. */
  function ScoredKeys(runs: map<Strategy, seq<Run>>, q: QueryId): set<Key> {
    set s, run, k | s in runs && run in runs[s] && k in ReportedKeys(run, q) :: k
  }

  function Queries(runs: map<Strategy, seq<Run>>): set<QueryId> {
    set s, run, report | s in runs && run in runs[s] && report in run.reports :: report.query
  }

  /** The scores a strategy reported on some query. */
  function ProducedKeys(runs: seq<Run>): set<Key> {
    set run, report, k | run in runs && report in run.reports && k in ReportedKeys(run, report.query) :: k
  }

  /** The metrics a failed answer of the strategy to `q` counts 0 on. */
  function FailedScores(runs: map<Strategy, seq<Run>>, s: Strategy, q: QueryId): set<Key>
    requires s in runs
  {
    var produced := ProducedKeys(runs[s]);
    if produced != {} then ScoredKeys(runs, q) * produced else ScoredKeys(runs, q)
  }

  // ----- The values a run contributes to a metric of a query

  function ScoreValues(scores: seq<Score>, key: Key): seq<real> {
    if scores == [] then [] else
      var n := |scores| - 1;
      ScoreValues(scores[..n], key) + if scores[n].key == key then [scores[n].value] else []
  }

  function ReportValues(reports: seq<Report>, key: Key, q: QueryId): seq<real> {
    if reports == [] then [] else
      var n := |reports| - 1;
      ReportValues(reports[..n], key, q) + if reports[n].query == q then ScoreValues(reports[n].scores, key) else []
  }

  function Declined(a: Answer): bool {
    a.abstained && !a.error
  }

  /** What one answer adds: 0 on the filled metrics when it failed, and its decline when it should have. */
  function AnswerValues(a: Answer, filled: set<Key>, key: Key, q: QueryId): seq<real> {
    if a.query != q then [] else
      (if a.error && key in filled then [0.0] else [])
      + (if a.unanswerable && key == ABSTENTION_RECALL then [if Declined(a) then 1.0 else 0.0] else [])
  }

  function ResultValues(results: seq<Answer>, filled: set<Key>, key: Key, q: QueryId): seq<real> {
    if results == [] then [] else
      var n := |results| - 1;
      ResultValues(results[..n], filled, key, q) + AnswerValues(results[n], filled, key, q)
  }

  function RunValues(run: Run, filled: set<Key>, key: Key, q: QueryId): seq<real> {
    ReportValues(run.reports, key, q) + ResultValues(run.results, filled, key, q)
  }

  /** All values of a metric for a query over a strategy's runs; `filled` is the query's. */
  function Values(runs: seq<Run>, filled: set<Key>, key: Key, q: QueryId): seq<real> {
    if runs == [] then [] else
      var n := |runs| - 1;
      Values(runs[..n], filled, key, q) + RunValues(runs[n], filled, key, q)
  }

  function Mean(v: seq<real>): real
    requires v != []
  {
    Sum(v) / |v| as real
  }

  // ----- Tables keyed by metric and query

  type Table<T> = map<Key, map<QueryId, T>>

  function Lookup(t: Table<seq<real>>, key: Key, q: QueryId): seq<real> {
    if key in t && q in t[key] then t[key][q] else []
  }

  function Row(t: Table<seq<real>>, key: Key): map<QueryId, seq<real>> {
    if key in t then t[key] else map[]
  }

  function Append(t: Table<seq<real>>, key: Key, q: QueryId, v: real): Table<seq<real>> {
    t[key := Row(t, key)[q := Lookup(t, key, q) + [v]]]
  }

  function ScoresAdded(t: Table<seq<real>>, scores: seq<Score>, q: QueryId): Table<seq<real>> {
    if scores == [] then t else
      var n := |scores| - 1;
      Append(ScoresAdded(t, scores[..n], q), scores[n].key, q, scores[n].value)
  }

  function ReportsAdded(t: Table<seq<real>>, reports: seq<Report>): Table<seq<real>> {
    if reports == [] then t else
      var n := |reports| - 1;
      ScoresAdded(ReportsAdded(t, reports[..n]), reports[n].scores, reports[n].query)
  }

  function FilledAdded(t: Table<seq<real>>, filled: set<Key>, q: QueryId): Table<seq<real>> {
    map key | key in t.Keys + filled ::
      if key in filled then Row(t, key)[q := Lookup(t, key, q) + [0.0]] else t[key]
  }

  function AnswerAdded(t: Table<seq<real>>, a: Answer, filled: set<Key>): Table<seq<real>> {
    var r := if a.error then FilledAdded(t, filled, a.query) else t;
    if a.unanswerable then Append(r, ABSTENTION_RECALL, a.query, if Declined(a) then 1.0 else 0.0) else r
  }

  /** The filled metrics of a query, as looked up (`failed.get(query_id, ())`). */
  function Filled(failed: map<QueryId, set<Key>>, q: QueryId): set<Key> {
    if q in failed then failed[q] else {}
  }

  function ResultsAdded(t: Table<seq<real>>, results: seq<Answer>, failed: map<QueryId, set<Key>>): Table<seq<real>> {
    if results == [] then t else
      var n := |results| - 1;
      AnswerAdded(ResultsAdded(t, results[..n], failed), results[n], Filled(failed, results[n].query))
  }

  function RunsAdded(runs: seq<Run>, failed: map<QueryId, set<Key>>): Table<seq<real>> {
    if runs == [] then map[] else
      var n := |runs| - 1;
      ResultsAdded(ReportsAdded(RunsAdded(runs[..n], failed), runs[n].reports), runs[n].results, failed)
  }

  ghost function QueryValues(runs: seq<Run>, failed: map<QueryId, set<Key>>, key: Key, q: QueryId): seq<real> {
    Values(runs, Filled(failed, q), key, q)
  }

  /** `m` holds, for each metric and query with values, their mean; and nothing else. */
  ghost predicate IsMeansOfRuns(m: Table<real>, runs: seq<Run>, failed: map<QueryId, set<Key>>) {
    && (forall k :: k in m ==> m[k] != map[])
    && (forall k, p :: (k in m && p in m[k]) <==> QueryValues(runs, failed, k, p) != [])
    && (forall k, p :: k in m && p in m[k] ==> m[k][p] == Mean(QueryValues(runs, failed, k, p)))
  }

  method AddFilled(t: Table<seq<real>>, filled: set<Key>, q: QueryId) returns (r: Table<seq<real>>)
    ensures r == FilledAdded(t, filled, q)
  {
    r := t;
    var left := filled;
    while left != {}
      invariant left <= filled && r == FilledAdded(t, filled - left, q)
    {
      var key :| key in left;
      r := Append(r, key, q, 0.0);
      left := left - {key};
    }
    assert filled - left == filled;
  }

  method AddReports(values: Table<seq<real>>, reports: seq<Report>) returns (added: Table<seq<real>>)
    ensures added == ReportsAdded(values, reports)
  {
    added := values;
    for j := 0 to |reports|
      invariant added == ReportsAdded(values, reports[..j])
    {
      var scores, q := reports[j].scores, reports[j].query;
      ghost var before := added;
      for k := 0 to |scores|
        invariant added == ScoresAdded(before, scores[..k], q)
      {
        added := Append(added, scores[k].key, q, scores[k].value);
        assert scores[..k + 1][..k] == scores[..k];
      }
      assert scores[..|scores|] == scores && reports[..j + 1][..j] == reports[..j];
    }
    assert reports[..|reports|] == reports;
  }

  method AddResults(values: Table<seq<real>>, results: seq<Answer>, failed: map<QueryId, set<Key>>)
      returns (added: Table<seq<real>>)
    ensures added == ResultsAdded(values, results, failed)
  {
    added := values;
    for j := 0 to |results|
      invariant added == ResultsAdded(values, results[..j], failed)
    {
      var a := results[j];
      if a.error {
        added := AddFilled(added, Filled(failed, a.query), a.query);
      }
      if a.unanswerable {
        added := Append(added, ABSTENTION_RECALL, a.query, if Declined(a) then 1.0 else 0.0);
      }
      assert results[..j + 1][..j] == results[..j];
    }
    assert results[..|results|] == results;
  }

  /** Per metric and query, the mean over the runs that scored it, failed answers filled. */
  method PerQueryMeans(runs: seq<Run>, failed: map<QueryId, set<Key>>) returns (means: Table<real>)
    ensures IsMeansOfRuns(means, runs, failed)
  {
    var values: Table<seq<real>> := map[];
    for i := 0 to |runs|
      invariant values == RunsAdded(runs[..i], failed)
    {
      values := AddReports(values, runs[i].reports);
      values := AddResults(values, runs[i].results, failed);
      assert runs[..i + 1][..i] == runs[..i];
    }
    assert runs[..|runs|] == runs;
    RunsAddedCompact(runs, failed);
    means := map key | key in values :: map q | q in values[key] && values[key][q] != [] :: Mean(values[key][q]);
    MeansAreOfRuns(means, runs, failed);
  }

  // ----- The table holds the values

  /** Only what was appended to is there: no empty list, no empty row. */
  ghost predicate Compact(t: Table<seq<real>>) {
    && (forall key :: key in t ==> t[key] != map[])
    && (forall key, q :: key in t && q in t[key] ==> t[key][q] != [])
  }

  lemma AppendCompact(t: Table<seq<real>>, key: Key, q: QueryId, v: real)
    requires Compact(t)
    ensures Compact(Append(t, key, q, v))
  {
    assert q in Append(t, key, q, v)[key];
  }

  lemma FilledCompact(t: Table<seq<real>>, filled: set<Key>, q: QueryId)
    requires Compact(t)
    ensures Compact(FilledAdded(t, filled, q))
  {
    forall key | key in filled
      ensures FilledAdded(t, filled, q)[key] != map[]
    {
      assert q in FilledAdded(t, filled, q)[key];
    }
  }

  lemma {:induction false} ScoresCompact(t: Table<seq<real>>, scores: seq<Score>, q: QueryId)
    requires Compact(t)
    ensures Compact(ScoresAdded(t, scores, q))
  {
    if scores != [] {
      var n := |scores| - 1;
      ScoresCompact(t, scores[..n], q);
      AppendCompact(ScoresAdded(t, scores[..n], q), scores[n].key, q, scores[n].value);
    }
  }

  lemma {:induction false} ReportsCompact(t: Table<seq<real>>, reports: seq<Report>)
    requires Compact(t)
    ensures Compact(ReportsAdded(t, reports))
  {
    if reports != [] {
      var n := |reports| - 1;
      ReportsCompact(t, reports[..n]);
      ScoresCompact(ReportsAdded(t, reports[..n]), reports[n].scores, reports[n].query);
    }
  }

  lemma AnswerCompact(t: Table<seq<real>>, a: Answer, filled: set<Key>)
    requires Compact(t)
    ensures Compact(AnswerAdded(t, a, filled))
  {
    FilledCompact(t, filled, a.query);
    var r := if a.error then FilledAdded(t, filled, a.query) else t;
    AppendCompact(r, ABSTENTION_RECALL, a.query, if Declined(a) then 1.0 else 0.0);
  }

  lemma {:induction false} ResultsCompact(t: Table<seq<real>>, results: seq<Answer>, failed: map<QueryId, set<Key>>)
    requires Compact(t)
    ensures Compact(ResultsAdded(t, results, failed))
  {
    if results != [] {
      var n := |results| - 1;
      ResultsCompact(t, results[..n], failed);
      AnswerCompact(ResultsAdded(t, results[..n], failed), results[n], Filled(failed, results[n].query));
    }
  }

  lemma {:induction false} RunsAddedCompact(runs: seq<Run>, failed: map<QueryId, set<Key>>)
    ensures Compact(RunsAdded(runs, failed))
  {
    if runs != [] {
      var n := |runs| - 1;
      RunsAddedCompact(runs[..n], failed);
      ReportsCompact(RunsAdded(runs[..n], failed), runs[n].reports);
      ResultsCompact(ReportsAdded(RunsAdded(runs[..n], failed), runs[n].reports), runs[n].results, failed);
    }
  }

  lemma {:induction false} ScoresLookup(t: Table<seq<real>>, scores: seq<Score>, q: QueryId, k: Key, p: QueryId)
    ensures Lookup(ScoresAdded(t, scores, q), k, p) == Lookup(t, k, p) + if p == q then ScoreValues(scores, k) else []
  {
    if scores != [] {
      ScoresLookup(t, scores[..|scores| - 1], q, k, p);
    }
  }

  lemma {:induction false} ReportsLookup(t: Table<seq<real>>, reports: seq<Report>, k: Key, p: QueryId)
    ensures Lookup(ReportsAdded(t, reports), k, p) == Lookup(t, k, p) + ReportValues(reports, k, p)
  {
    if reports != [] {
      var n := |reports| - 1;
      ReportsLookup(t, reports[..n], k, p);
      ScoresLookup(ReportsAdded(t, reports[..n]), reports[n].scores, reports[n].query, k, p);
    }
  }

  lemma AnswerLookup(t: Table<seq<real>>, a: Answer, filled: set<Key>, k: Key, p: QueryId)
    ensures Lookup(AnswerAdded(t, a, filled), k, p) == Lookup(t, k, p) + AnswerValues(a, filled, k, p)
  {
    var r := if a.error then FilledAdded(t, filled, a.query) else t;
    assert Lookup(r, k, p) == Lookup(t, k, p) + if a.error && k in filled && a.query == p then [0.0] else [];
    assert AnswerAdded(t, a, filled) != r ==> a.unanswerable;
  }

  lemma {:induction false} ResultsLookup(t: Table<seq<real>>, results: seq<Answer>, failed: map<QueryId, set<Key>>,
                                         k: Key, p: QueryId)
    ensures Lookup(ResultsAdded(t, results, failed), k, p) == Lookup(t, k, p) + ResultValues(results, Filled(failed, p), k, p)
  {
    if results != [] {
      var n := |results| - 1;
      var a, before := results[n], ResultsAdded(t, results[..n], failed);
      var own := AnswerValues(a, Filled(failed, p), k, p);
      ResultsLookup(t, results[..n], failed, k, p);
      assert Lookup(AnswerAdded(before, a, Filled(failed, a.query)), k, p) == Lookup(before, k, p) + own by {
        AnswerLookup(before, a, Filled(failed, a.query), k, p);
      }
    }
  }

  lemma {:induction false} RunsLookup(runs: seq<Run>, failed: map<QueryId, set<Key>>, k: Key, p: QueryId)
    ensures Lookup(RunsAdded(runs, failed), k, p) == Values(runs, Filled(failed, p), k, p)
  {
    if runs != [] {
      var n := |runs| - 1;
      RunsLookup(runs[..n], failed, k, p);
      ReportsLookup(RunsAdded(runs[..n], failed), runs[n].reports, k, p);
      ResultsLookup(ReportsAdded(RunsAdded(runs[..n], failed), runs[n].reports), runs[n].results, failed, k, p);
    }
  }

  lemma MeansAreOfRuns(means: Table<real>, runs: seq<Run>, failed: map<QueryId, set<Key>>)
    requires var values := RunsAdded(runs, failed);
      Compact(values)
      && means == map key | key in values :: map q | q in values[key] && values[key][q] != [] :: Mean(values[key][q])
    ensures IsMeansOfRuns(means, runs, failed)
  {
    var values := RunsAdded(runs, failed);
    forall k | k in means
      ensures means[k] != map[]
    {
      var q :| q in values[k];
      assert q in means[k];
    }
    forall k, p
      ensures (k in means && p in means[k]) <==> QueryValues(runs, failed, k, p) != []
      ensures k in means && p in means[k] ==> means[k][p] == Mean(QueryValues(runs, failed, k, p))
    {
      RunsLookup(runs, failed, k, p);
    }
  }

  // ----- The keys of the metrics

  /** A key the table of means may hold: a metric's, or the decline measure. */
  predicate IsMetric(key: Key) {
    key.family in EVALUATORS || key == ABSTENTION_RECALL
  }

  lemma {:induction false} ScoredIsMetric(scores: seq<Score>, key: Key)
    requires ScoreValues(scores, key) != []
    ensures key.family in EVALUATORS
  {
    if scores[|scores| - 1].key != key {
      ScoredIsMetric(scores[..|scores| - 1], key);
    }
  }

  lemma {:induction false} ReportedIsMetric(reports: seq<Report>, key: Key, q: QueryId)
    requires ReportValues(reports, key, q) != []
    ensures key.family in EVALUATORS
  {
    var n := |reports| - 1;
    if ReportValues(reports[..n], key, q) != [] {
      ReportedIsMetric(reports[..n], key, q);
    } else {
      ScoredIsMetric(reports[n].scores, key);
    }
  }

  lemma {:induction false} FilledIsMetric(results: seq<Answer>, filled: set<Key>, key: Key, q: QueryId)
    requires ResultValues(results, filled, key, q) != [] && forall k :: k in filled ==> IsMetric(k)
    ensures IsMetric(key)
  {
    var n := |results| - 1;
    if ResultValues(results[..n], filled, key, q) != [] {
      FilledIsMetric(results[..n], filled, key, q);
    }
  }

  lemma {:induction false} ValueIsMetric(runs: seq<Run>, filled: set<Key>, key: Key, q: QueryId)
    requires Values(runs, filled, key, q) != [] && forall k :: k in filled ==> IsMetric(k)
    ensures IsMetric(key)
  {
    var n := |runs| - 1;
    if Values(runs[..n], filled, key, q) != [] {
      ValueIsMetric(runs[..n], filled, key, q);
    } else if ReportValues(runs[n].reports, key, q) != [] {
      ReportedIsMetric(runs[n].reports, key, q);
    } else {
      FilledIsMetric(runs[n].results, filled, key, q);
    }
  }

  // ----- A strategy gains nothing by failing

  /** The run with its answer to q failed: no report for q, and every result for q an error. */
  function FailAnswer(run: Run, q: QueryId): Run {
    Run(WithoutQuery(run.reports, q), Failed(run.results, q))
  }

  function WithoutQuery(reports: seq<Report>, q: QueryId): seq<Report> {
    if reports == [] then [] else
      var n := |reports| - 1;
      WithoutQuery(reports[..n], q) + if reports[n].query == q then [] else [reports[n]]
  }

  function Failed(results: seq<Answer>, q: QueryId): (r: seq<Answer>)
    ensures |r| == |results|
  {
    if results == [] then [] else
      var n := |results| - 1;
      Failed(results[..n], q) + [if results[n].query == q then results[n].(error := true) else results[n]]
  }

  /** The runs of all strategies when run r of strategy s fails on q. */
  function WithFailure(runs: map<Strategy, seq<Run>>, s: Strategy, r: nat, q: QueryId): map<Strategy, seq<Run>>
    requires s in runs && r < |runs[s]|
  {
    runs[s := runs[s][r := FailAnswer(runs[s][r], q)]]
  }

  /** The mean the comparison reads for a strategy, metric and query, if it has any value. */
  ghost function ComparedMean(runs: map<Strategy, seq<Run>>, s: Strategy, key: Key, q: QueryId): Option<real>
    requires s in runs
  {
    var v := Values(runs[s], FailedScores(runs, s, q), key, q);
    if v == [] then None else Some(Mean(v))
  }

  /** The strategy's delta against the baseline on one query, when both have a value there. */
  ghost function PairedDelta(runs: map<Strategy, seq<Run>>, base: Strategy, s: Strategy, key: Key,
                             q: QueryId): Option<real>
    requires base in runs && s in runs
  {
    var b, o := ComparedMean(runs, base, key, q), ComparedMean(runs, s, key, q);
    if b.Some? && o.Some? then Some(o.value - b.value) else None
  }

  /** The answers a run holds for q. */
  function AnswersTo(results: seq<Answer>, q: QueryId): seq<Answer> {
    if results == [] then [] else
      var n := |results| - 1;
      AnswersTo(results[..n], q) + if results[n].query == q then [results[n]] else []
  }

  ghost predicate NonNegative(v: seq<real>) {
    forall i :: 0 <= i < |v| ==> v[i] >= 0.0
  }

  // The fill rule only loses keys when an answer fails.

  lemma {:induction false} KeptReports(reports: seq<Report>, q: QueryId)
    ensures forall report :: report in WithoutQuery(reports, q) <==> report in reports && report.query != q
  {
    if reports != [] {
      KeptReports(reports[..|reports| - 1], q);
    }
  }

  lemma FailureReportsLess(run: Run, q: QueryId, p: QueryId)
    ensures ReportedKeys(FailAnswer(run, q), p) <= ReportedKeys(run, p)
  {
    KeptReports(run.reports, q);
  }

  lemma FailureScoresLess(runs: map<Strategy, seq<Run>>, s: Strategy, r: nat, q: QueryId)
    requires s in runs && r < |runs[s]|
    ensures var failing := WithFailure(runs, s, r, q);
      ScoredKeys(failing, q) <= ScoredKeys(runs, q) && ProducedKeys(failing[s]) <= ProducedKeys(runs[s])
  {
    var failing := WithFailure(runs, s, r, q);
    var run := runs[s][r];
    forall k | k in ScoredKeys(failing, q)
      ensures k in ScoredKeys(runs, q)
    {
      var t, run': Run :| t in failing && run' in failing[t] && k in ReportedKeys(run', q);
      if run' !in runs[t] {
        assert run' == FailAnswer(run, q) && run in runs[s];
        FailureReportsLess(run, q, q);
      }
    }
    forall k | k in ProducedKeys(failing[s])
      ensures k in ProducedKeys(runs[s])
    {
      var run': Run, report: Report :| run' in failing[s] && report in run'.reports
          && k in ReportedKeys(run', report.query);
      if run' !in runs[s] {
        assert run' == FailAnswer(run, q) && run in runs[s];
        FailureReportsLess(run, q, report.query);
        KeptReports(run.reports, q);
      }
    }
  }

  // Only whether the metric is filled matters to its values.

  lemma {:induction false} SameFill(results: seq<Answer>, a: set<Key>, b: set<Key>, key: Key, q: QueryId)
    requires key in a <==> key in b
    ensures ResultValues(results, a, key, q) == ResultValues(results, b, key, q)
  {
    if results != [] {
      SameFill(results[..|results| - 1], a, b, key, q);
    }
  }

  lemma {:induction false} SameFillOverRuns(runs: seq<Run>, a: set<Key>, b: set<Key>, key: Key, q: QueryId)
    requires key in a <==> key in b
    ensures Values(runs, a, key, q) == Values(runs, b, key, q)
  {
    if runs != [] {
      var n := |runs| - 1;
      SameFillOverRuns(runs[..n], a, b, key, q);
      SameFill(runs[n].results, a, b, key, q);
    }
  }

  lemma {:induction false} ValuesConcat(x: seq<Run>, y: seq<Run>, filled: set<Key>, key: Key, q: QueryId)
    ensures Values(x + y, filled, key, q) == Values(x, filled, key, q) + Values(y, filled, key, q)
  {
    if y == [] {
      assert x + y == x;
    } else {
      var n := |y| - 1;
      assert (x + y)[..|x + y| - 1] == x + y[..n];
      ValuesConcat(x, y[..n], filled, key, q);
    }
  }

  /** The values around run r stay in place when run r is replaced. */
  lemma ValuesAround(runs: seq<Run>, r: nat, run: Run, filled: set<Key>, key: Key, q: QueryId)
    requires r < |runs|
    ensures Values(runs[r := run], filled, key, q)
         == Values(runs[..r], filled, key, q) + RunValues(run, filled, key, q) + Values(runs[r + 1..], filled, key, q)
  {
    assert runs[r := run] == runs[..r] + ([run] + runs[r + 1..]);
    ValuesConcat(runs[..r], [run] + runs[r + 1..], filled, key, q);
    ValuesConcat([run], runs[r + 1..], filled, key, q);
    assert [run][..0] == [];
    assert Values([run], filled, key, q) == RunValues(run, filled, key, q);
  }

  // What a failed answer contributes.

  lemma {:induction false} NoReportValues(reports: seq<Report>, key: Key, q: QueryId)
    ensures ReportValues(WithoutQuery(reports, q), key, q) == []
  {
    if reports != [] {
      var n := |reports| - 1;
      NoReportValues(reports[..n], key, q);
      var kept := WithoutQuery(reports[..n], q);
      assert (kept + [reports[n]])[..|kept|] == kept;
      assert kept + [] == kept;
    }
  }

  lemma {:induction false} AnswerContribution(results: seq<Answer>, filled: set<Key>, key: Key, q: QueryId)
    ensures ResultValues(results, filled, key, q) == ResultValues(AnswersTo(results, q), filled, key, q)
    ensures AnswersTo(Failed(results, q), q) == Failed(AnswersTo(results, q), q)
    ensures |AnswersTo(Failed(results, q), q)| == |AnswersTo(results, q)|
  {
    if results != [] {
      var n := |results| - 1;
      AnswerContribution(results[..n], filled, key, q);
      var kept, failed := AnswersTo(results[..n], q), Failed(results[..n], q);
      assert (kept + [results[n]])[..|kept|] == kept;
      assert kept + [] == kept;
      assert Failed(results, q)[..n] == failed;
      assert AnswersTo(failed, q) == Failed(kept, q);
    }
  }

  /** A run's values for the one answer it gave to q, before and after that answer fails. */
  lemma FailedContribution(run: Run, a: Answer, filled: set<Key>, key: Key, q: QueryId)
    requires AnswersTo(run.results, q) == [a]
    ensures RunValues(run, filled, key, q) == ReportValues(run.reports, key, q) + AnswerValues(a, filled, key, q)
    ensures RunValues(FailAnswer(run, q), filled, key, q) == AnswerValues(a.(error := true), filled, key, q)
  {
    AnswerContribution(run.results, filled, key, q);
    AnswerContribution(Failed(run.results, q), filled, key, q);
    NoReportValues(run.reports, key, q);
    OnlyAnswerTo(run.results, q);
    assert [a][..0] == [] && [a.(error := true)][..0] == [];
    assert Failed([a], q) == [a.(error := true)];
    assert ResultValues([a], filled, key, q) == AnswerValues(a, filled, key, q);
    assert ResultValues([a.(error := true)], filled, key, q) == AnswerValues(a.(error := true), filled, key, q);
  }

  lemma {:induction false} OnlyAnswerTo(results: seq<Answer>, q: QueryId)
    ensures forall a :: a in AnswersTo(results, q) ==> a.query == q
  {
    if results != [] {
      OnlyAnswerTo(results[..|results| - 1], q);
    }
  }

  lemma {:induction false} SumNonNegative(v: seq<real>)
    requires NonNegative(v)
    ensures Sum(v) >= 0.0
  {
    if v != [] {
      SumNonNegative(v[1..]);
    }
  }

  lemma SmallerMean(sum: real, n: nat, sum': real, n': nat)
    requires 0 < n <= n' && 0.0 <= sum' <= sum
    ensures sum' / n' as real <= sum / n as real
  {
    var x, y := sum / n as real, sum' / n' as real;
    assert x * n as real == sum && y * n' as real == sum';
    assert x >= 0.0;
    assert x * (n' - n) as real >= 0.0;
    assert x * n' as real == x * n as real + x * (n' - n) as real;
    assert (x - y) * n' as real >= 0.0;
  }

  /** A 0 in place of at most one non-negative value does not raise a mean. */
  lemma ZeroLowersMean(x: seq<real>, v: seq<real>, y: seq<real>)
    requires NonNegative(x) && NonNegative(v) && NonNegative(y) && |v| <= 1 && x + v + y != []
    ensures Mean(x + [0.0] + y) <= Mean(x + v + y)
  {
    SumConcat(x + [0.0], y);
    SumConcat(x, [0.0]);
    SumConcat(x + v, y);
    SumConcat(x, v);
    SumNonNegative(x);
    SumNonNegative(v);
    SumNonNegative(y);
    SmallerMean(Sum(x + v + y), |x + v + y|, Sum(x + [0.0] + y), |x + [0.0] + y|);
  }

  /** The fill rule still covers the metric after the answer failed, if it is scored elsewhere. */
  lemma StillFilled(runs: map<Strategy, seq<Run>>, s: Strategy, r: nat, key: Key, q: QueryId)
    requires s in runs && r < |runs[s]|
    requires key in ProducedKeys(WithFailure(runs, s, r, q)[s])
    requires key in ScoredKeys(WithFailure(runs, s, r, q), q)
    ensures key in FailedScores(runs, s, q) && key in FailedScores(WithFailure(runs, s, r, q), s, q)
    ensures forall t :: t in runs && t != s ==>
      (key in FailedScores(runs, t, q) <==> key in FailedScores(WithFailure(runs, s, r, q), t, q))
  {
    FailureScoresLess(runs, s, r, q);
  }

  /**
   * A strategy gains nothing by failing. Its answer to q in run r fails, on a metric it
   * still scores on some answer and that some run still scored q on, with at most one
   * value in that run and no negative one. Then q keeps its value, no higher than before,
   * and no other strategy's value moves.
   */
  lemma {:induction false} FailureNeverRaises(runs: map<Strategy, seq<Run>>, s: Strategy, r: nat, key: Key,
                                              q: QueryId, a: Answer)
    requires s in runs && r < |runs[s]| && key != ABSTENTION_RECALL
    requires AnswersTo(runs[s][r].results, q) == [a] && !a.error
    requires |ReportValues(runs[s][r].reports, key, q)| <= 1
    requires NonNegative(Values(runs[s], FailedScores(runs, s, q), key, q))
    requires ComparedMean(runs, s, key, q).Some?
    requires key in ProducedKeys(WithFailure(runs, s, r, q)[s])
    requires key in ScoredKeys(WithFailure(runs, s, r, q), q)
    ensures var failing := WithFailure(runs, s, r, q);
      && ComparedMean(failing, s, key, q).Some?
      && ComparedMean(failing, s, key, q).value <= ComparedMean(runs, s, key, q).value
      && forall t :: t in runs && t != s ==> ComparedMean(failing, t, key, q) == ComparedMean(runs, t, key, q)
  {
    var failing := WithFailure(runs, s, r, q);
    var filled := FailedScores(runs, s, q);
    OthersUnmoved(runs, s, r, key, q);
    StillFilled(runs, s, r, key, q);
    SameFillOverRuns(failing[s], FailedScores(failing, s, q), filled, key, q);
    var x, v, y := ZeroReplaces(runs[s], r, filled, key, q, a);
    PartsNonNegative(x, v, y);
    ZeroLowersMean(x, v, y);
  }

  lemma OthersUnmoved(runs: map<Strategy, seq<Run>>, s: Strategy, r: nat, key: Key, q: QueryId)
    requires s in runs && r < |runs[s]|
    requires key in ProducedKeys(WithFailure(runs, s, r, q)[s])
    requires key in ScoredKeys(WithFailure(runs, s, r, q), q)
    ensures forall t :: t in runs && t != s ==>
      ComparedMean(WithFailure(runs, s, r, q), t, key, q) == ComparedMean(runs, t, key, q)
  {
    var failing := WithFailure(runs, s, r, q);
    StillFilled(runs, s, r, key, q);
    forall t | t in runs && t != s
      ensures ComparedMean(failing, t, key, q) == ComparedMean(runs, t, key, q)
    {
      SameFillOverRuns(runs[t], FailedScores(runs, t, q), FailedScores(failing, t, q), key, q);
    }
  }

  /** On a filled metric, the failed answer's values give way to one 0, the others staying in place. */
  lemma ZeroReplaces(runs: seq<Run>, r: nat, filled: set<Key>, key: Key, q: QueryId, a: Answer)
    returns (x: seq<real>, v: seq<real>, y: seq<real>)
    requires r < |runs| && AnswersTo(runs[r].results, q) == [a] && !a.error
    requires key in filled && key != ABSTENTION_RECALL
    ensures v == ReportValues(runs[r].reports, key, q)
    ensures Values(runs, filled, key, q) == x + v + y
    ensures Values(runs[r := FailAnswer(runs[r], q)], filled, key, q) == x + [0.0] + y
  {
    var run := runs[r];
    x, v, y := Values(runs[..r], filled, key, q), ReportValues(run.reports, key, q), Values(runs[r + 1..], filled, key, q);
    assert RunValues(run, filled, key, q) == v && RunValues(FailAnswer(run, q), filled, key, q) == [0.0] by {
      OnlyAnswerTo(run.results, q);
      assert a in AnswersTo(run.results, q);
      FailedContribution(run, a, filled, key, q);
      assert v + [] == v;
    }
    assert runs[r := run] == runs;
    ValuesAround(runs, r, run, filled, key, q);
    ValuesAround(runs, r, FailAnswer(run, q), filled, key, q);
  }

  lemma PartsNonNegative(x: seq<real>, v: seq<real>, y: seq<real>)
    requires NonNegative(x + v + y)
    ensures NonNegative(x) && NonNegative(v) && NonNegative(y)
  {
    var all := x + v + y;
    assert forall i :: 0 <= i < |x| ==> x[i] == all[i];
    assert forall i :: 0 <= i < |v| ==> v[i] == all[|x| + i];
    assert forall i :: 0 <= i < |y| ==> y[i] == all[|x| + |v| + i];
  }

  /** So failing never raises the strategy's delta on q, and never takes q out of the pairs. */
  lemma {:induction false} FailureNeverRaisesDelta(runs: map<Strategy, seq<Run>>, base: Strategy, s: Strategy, r: nat,
                                key: Key, q: QueryId, a: Answer)
    requires base in runs && base != s && s in runs && r < |runs[s]| && key != ABSTENTION_RECALL
    requires AnswersTo(runs[s][r].results, q) == [a] && !a.error
    requires |ReportValues(runs[s][r].reports, key, q)| <= 1
    requires NonNegative(Values(runs[s], FailedScores(runs, s, q), key, q))
    requires PairedDelta(runs, base, s, key, q).Some?
    requires key in ProducedKeys(WithFailure(runs, s, r, q)[s])
    requires key in ScoredKeys(WithFailure(runs, s, r, q), q)
    ensures var failing := WithFailure(runs, s, r, q);
      && PairedDelta(failing, base, s, key, q).Some?
      && PairedDelta(failing, base, s, key, q).value <= PairedDelta(runs, base, s, key, q).value
  {
    FailureNeverRaises(runs, s, r, key, q, a);
  }

  lemma {:induction false} ScoreOfValue(scores: seq<Score>, key: Key)
    ensures ScoreValues(scores, key) != [] <==> exists score :: score in scores && score.key == key
  {
    if scores != [] {
      var n := |scores| - 1;
      ScoreOfValue(scores[..n], key);
      assert scores == scores[..n] + [scores[n]];
    }
  }

  /** The report gives the metric a value on the query. */
  predicate Gives(report: Report, key: Key, q: QueryId) {
    report.query == q && ScoreValues(report.scores, key) != []
  }

  ghost predicate SomeGives(reports: seq<Report>, key: Key, q: QueryId) {
    exists report :: report in reports && Gives(report, key, q)
  }

  lemma SomeGivesNext(reports: seq<Report>, last: Report, key: Key, q: QueryId)
    ensures SomeGives(reports + [last], key, q) <==> SomeGives(reports, key, q) || Gives(last, key, q)
  {
    if Gives(last, key, q) {
      assert last in reports + [last];
    }
    if SomeGives(reports, key, q) {
      var report :| report in reports && Gives(report, key, q);
      assert report in reports + [last];
    }
  }

  lemma {:induction false} ReportOfValue(reports: seq<Report>, key: Key, q: QueryId)
    ensures ReportValues(reports, key, q) != [] <==> SomeGives(reports, key, q)
  {
    if reports != [] {
      var n := |reports| - 1;
      ReportOfValue(reports[..n], key, q);
      SomeGivesNext(reports[..n], reports[n], key, q);
      assert reports == reports[..n] + [reports[n]];
    }
  }

  /** Some run's reports give the metric a value on the query. */
  ghost predicate SomeReports(runs: seq<Run>, key: Key, q: QueryId) {
    exists run :: run in runs && ReportValues(run.reports, key, q) != []
  }

  lemma {:induction false} NothingFilled(results: seq<Answer>, filled: set<Key>, key: Key, q: QueryId)
    requires key !in filled && key != ABSTENTION_RECALL
    ensures ResultValues(results, filled, key, q) == []
  {
    if results != [] {
      NothingFilled(results[..|results| - 1], filled, key, q);
    }
  }

  lemma SomeReportsNext(runs: seq<Run>, last: Run, key: Key, q: QueryId)
    ensures SomeReports(runs + [last], key, q) <==> SomeReports(runs, key, q) || ReportValues(last.reports, key, q) != []
  {
    if ReportValues(last.reports, key, q) != [] {
      assert last in runs + [last];
    }
    if SomeReports(runs, key, q) {
      var run: Run :| run in runs && ReportValues(run.reports, key, q) != [];
      assert run in runs + [last];
    }
  }

  /** Where nothing is filled, only reports give values. */
  lemma {:induction false} OnlyReported(runs: seq<Run>, filled: set<Key>, key: Key, q: QueryId)
    requires key !in filled && key != ABSTENTION_RECALL
    ensures Values(runs, filled, key, q) != [] <==> SomeReports(runs, key, q)
  {
    if runs != [] {
      var n := |runs| - 1;
      OnlyReported(runs[..n], filled, key, q);
      NothingFilled(runs[n].results, filled, key, q);
      SomeReportsNext(runs[..n], runs[n], key, q);
      assert runs == runs[..n] + [runs[n]];
    }
  }

  /** A reported metric is scored and produced, unless it is one that is never filled. */
  lemma ReportedIsFilled(runs: map<Strategy, seq<Run>>, s: Strategy, key: Key, q: QueryId)
    requires s in runs && SomeReports(runs[s], key, q) && key.name !in UNFILLED
    ensures key in FailedScores(runs, s, q)
  {
    var run: Run :| run in runs[s] && ReportValues(run.reports, key, q) != [];
    ReportOfValue(run.reports, key, q);
    var report: Report :| report in run.reports && Gives(report, key, q);
    ScoreOfValue(report.scores, key);
    var score :| score in report.scores && score.key == key;
    assert key in ReportedKeys(run, q);
    assert key in ScoredKeys(runs, q) && key in ProducedKeys(runs[s]);
  }

  lemma NeverFilled(runs: map<Strategy, seq<Run>>, s: Strategy, key: Key, q: QueryId)
    requires s in runs && key.name in UNFILLED
    ensures key !in FailedScores(runs, s, q)
  {
  }

  /** A metric that is filled for the query has a value there as soon as an answer to it failed. */
  lemma FailureGivesZero(runs: seq<Run>, r: nat, filled: set<Key>, key: Key, q: QueryId, a: Answer)
    requires r < |runs| && AnswersTo(runs[r].results, q) == [a] && key in filled
    ensures Values(runs[r := FailAnswer(runs[r], q)], filled, key, q) != []
  {
    OnlyAnswerTo(runs[r].results, q);
    assert a in AnswersTo(runs[r].results, q);
    FailedContribution(runs[r], a, filled, key, q);
    ValuesAround(runs, r, FailAnswer(runs[r], q), filled, key, q);
  }

  /**
   * When the fill rule does not reach. After an answer to q fails, the strategy keeps a value for
   * q, on a metric a failure can be filled on, exactly when some run still scores q on the metric
   * and the strategy still scores the metric somewhere, or nothing at all any more; on a metric
   * that is never filled, exactly when one of its runs still reports it for q.
   */
  lemma FailureKeepsQueryIff(runs: map<Strategy, seq<Run>>, s: Strategy, r: nat, key: Key, q: QueryId, a: Answer)
    requires s in runs && r < |runs[s]| && key != ABSTENTION_RECALL
    requires AnswersTo(runs[s][r].results, q) == [a]
    ensures var failing := WithFailure(runs, s, r, q); var produced := ProducedKeys(failing[s]);
      ComparedMean(failing, s, key, q).Some?
      <==> if key.name in UNFILLED then SomeReports(failing[s], key, q)
           else key in ScoredKeys(failing, q) && (produced == {} || key in produced)
  {
    var failing := WithFailure(runs, s, r, q);
    var filled := FailedScores(failing, s, q);
    if key in filled {
      FailureGivesZero(runs[s], r, filled, key, q, a);
    } else {
      OnlyReported(failing[s], filled, key, q);
      if SomeReports(failing[s], key, q) && key.name !in UNFILLED {
        ReportedIsFilled(failing, s, key, q);
      }
    }
    if key.name in UNFILLED {
      NeverFilled(failing, s, key, q);
    }
  }

  /** Another strategy's values for q move only when q is scored nowhere else any more. */
  lemma OtherStrategyUnmoved(runs: map<Strategy, seq<Run>>, s: Strategy, r: nat, t: Strategy, key: Key, q: QueryId)
    requires s in runs && r < |runs[s]| && t in runs && t != s
    requires key in ScoredKeys(WithFailure(runs, s, r, q), q) || key.name in UNFILLED
    ensures ComparedMean(WithFailure(runs, s, r, q), t, key, q) == ComparedMean(runs, t, key, q)
  {
    var failing := WithFailure(runs, s, r, q);
    FailureScoresLess(runs, s, r, q);
    if key.name in UNFILLED {
      NeverFilled(runs, t, key, q);
      NeverFilled(failing, t, key, q);
    }
    SameFillOverRuns(runs[t], FailedScores(runs, t, q), FailedScores(failing, t, q), key, q);
  }

  /**
   * So a failed answer to q keeps q in the pairs exactly when the baseline has a value for q and the
   * strategy keeps one: the fill rule takes no other strategy's value away.
   */
  lemma FailureKeepsPairIff(runs: map<Strategy, seq<Run>>, base: Strategy, s: Strategy, r: nat, key: Key,
                            q: QueryId, a: Answer)
    requires base in runs && base != s && s in runs && r < |runs[s]| && key != ABSTENTION_RECALL
    requires AnswersTo(runs[s][r].results, q) == [a]
    ensures var failing := WithFailure(runs, s, r, q); var produced := ProducedKeys(failing[s]);
      PairedDelta(failing, base, s, key, q).Some?
      <==> ComparedMean(runs, base, key, q).Some?
           && if key.name in UNFILLED then SomeReports(failing[s], key, q)
              else key in ScoredKeys(failing, q) && (produced == {} || key in produced)
  {
    var failing := WithFailure(runs, s, r, q);
    FailureKeepsQueryIff(runs, s, r, key, q, a);
    if ComparedMean(failing, s, key, q).Some? {
      OtherStrategyUnmoved(runs, s, r, base, key, q);
    }
  }

  // ----- The other queries

  lemma {:induction false} OtherReportsKept(reports: seq<Report>, q: QueryId, key: Key, p: QueryId)
    requires p != q
    ensures ReportValues(WithoutQuery(reports, q), key, p) == ReportValues(reports, key, p)
  {
    if reports != [] {
      var n := |reports| - 1;
      OtherReportsKept(reports[..n], q, key, p);
      var kept := WithoutQuery(reports[..n], q);
      assert (kept + [reports[n]])[..|kept|] == kept;
      assert kept + [] == kept;
    }
  }

  lemma {:induction false} OtherAnswersKept(results: seq<Answer>, q: QueryId, filled: set<Key>, key: Key, p: QueryId)
    requires p != q
    ensures ResultValues(Failed(results, q), filled, key, p) == ResultValues(results, filled, key, p)
  {
    if results != [] {
      var n := |results| - 1;
      OtherAnswersKept(results[..n], q, filled, key, p);
      assert Failed(results, q)[..n] == Failed(results[..n], q);
    }
  }

  lemma OtherKeysKept(run: Run, q: QueryId, p: QueryId)
    requires p != q
    ensures ReportedKeys(FailAnswer(run, q), p) == ReportedKeys(run, p)
  {
    KeptReports(run.reports, q);
  }

  lemma OtherScoresKept(runs: map<Strategy, seq<Run>>, s: Strategy, r: nat, q: QueryId, p: QueryId, key: Key)
    requires s in runs && r < |runs[s]| && p != q
    ensures key in ScoredKeys(WithFailure(runs, s, r, q), p) <==> key in ScoredKeys(runs, p)
  {
    var failing, run := WithFailure(runs, s, r, q), runs[s][r];
    OtherKeysKept(run, q, p);
    assert failing[s][r] == FailAnswer(run, q);
    if key in ScoredKeys(runs, p) {
      var t, run': Run :| t in runs && run' in runs[t] && key in ReportedKeys(run', p);
      var i :| 0 <= i < |runs[t]| && runs[t][i] == run';
      if t == s && i == r {
        assert FailAnswer(run, q) in failing[s];
      } else {
        assert failing[t][i] == run';
      }
    }
    if key in ScoredKeys(failing, p) {
      var t, run': Run :| t in failing && run' in failing[t] && key in ReportedKeys(run', p);
      var i :| 0 <= i < |failing[t]| && failing[t][i] == run';
      if t == s && i == r {
        assert run in runs[s];
      } else {
        assert runs[t][i] == run';
      }
    }
  }

  /** A failed answer to q moves no value of any other query, while the strategy still scores the metric. */
  lemma OtherQueriesUnmoved(runs: map<Strategy, seq<Run>>, s: Strategy, r: nat, t: Strategy, key: Key,
                            q: QueryId, p: QueryId)
    requires s in runs && r < |runs[s]| && t in runs && p != q
    requires key in ProducedKeys(WithFailure(runs, s, r, q)[s])
    ensures ComparedMean(WithFailure(runs, s, r, q), t, key, p) == ComparedMean(runs, t, key, p)
  {
    var failing, run := WithFailure(runs, s, r, q), runs[s][r];
    var filled, filled' := FailedScores(runs, t, p), FailedScores(failing, t, p);
    OtherScoresKept(runs, s, r, q, p, key);
    FailureScoresLess(runs, s, r, q);
    SameFillOverRuns(failing[t], filled, filled', key, p);
    if t == s {
      OtherReportsKept(run.reports, q, key, p);
      OtherAnswersKept(run.results, q, filled, key, p);
      ValuesAround(runs[s], r, run, filled, key, p);
      ValuesAround(runs[s], r, FailAnswer(run, q), filled, key, p);
      assert runs[s][r := run] == runs[s];
    }
  }

  lemma {:induction false} FlagsNonNegative(results: seq<Answer>, filled: set<Key>, q: QueryId)
    ensures NonNegative(ResultValues(results, filled, ABSTENTION_RECALL, q))
  {
    if results != [] {
      FlagsNonNegative(results[..|results| - 1], filled, q);
    }
  }

  /** The decline measure has only the answers' flags for values: no evaluator reports it. */
  lemma {:induction false} DeclinesNonNegative(runs: seq<Run>, filled: set<Key>, q: QueryId)
    ensures NonNegative(Values(runs, filled, ABSTENTION_RECALL, q))
  {
    if runs != [] {
      var n := |runs| - 1;
      DeclinesNonNegative(runs[..n], filled, q);
      FlagsNonNegative(runs[n].results, filled, q);
      NoneReported(runs[n].reports, q);
    }
  }

  lemma NoneReported(reports: seq<Report>, q: QueryId)
    ensures ReportValues(reports, ABSTENTION_RECALL, q) == []
  {
    if ReportValues(reports, ABSTENTION_RECALL, q) != [] {
      ReportedIsMetric(reports, ABSTENTION_RECALL, q);
      assert false;
    }
  }

  lemma ScoredAreMetrics(runs: map<Strategy, seq<Run>>, q: QueryId)
    ensures forall k :: k in ScoredKeys(runs, q) ==> k.family in EVALUATORS
  {
    forall k | k in ScoredKeys(runs, q)
      ensures k.family in EVALUATORS
    {
      var s, run: Run :| s in runs && run in runs[s] && k in ReportedKeys(run, q);
      var report: Report, score: Score :| report in run.reports && score in report.scores && score.key == k;
    }
  }

  /** A failed answer is no decline: abstention recall never rises by failing either. */
  lemma FailureIsNoDecline(runs: map<Strategy, seq<Run>>, s: Strategy, r: nat, q: QueryId, a: Answer)
    requires s in runs && r < |runs[s]| && AnswersTo(runs[s][r].results, q) == [a] && !a.error && a.unanswerable
    ensures var failing := WithFailure(runs, s, r, q);
      && ComparedMean(runs, s, ABSTENTION_RECALL, q).Some? && ComparedMean(failing, s, ABSTENTION_RECALL, q).Some?
      && ComparedMean(failing, s, ABSTENTION_RECALL, q).value <= ComparedMean(runs, s, ABSTENTION_RECALL, q).value
  {
    var failing := WithFailure(runs, s, r, q);
    ScoredAreMetrics(runs, q);
    ScoredAreMetrics(failing, q);
    var filled := FailedScores(runs, s, q);
    SameFillOverRuns(failing[s], FailedScores(failing, s, q), filled, ABSTENTION_RECALL, q);
    FlagGivesWay(runs[s], r, filled, q, a);
  }

  /** The failed answer's flag becomes 0, the others staying in place. */
  lemma FlagGivesWay(runs: seq<Run>, r: nat, filled: set<Key>, q: QueryId, a: Answer)
    requires r < |runs| && AnswersTo(runs[r].results, q) == [a] && !a.error && a.unanswerable
    requires ABSTENTION_RECALL !in filled
    ensures var failing := runs[r := FailAnswer(runs[r], q)];
      && Values(runs, filled, ABSTENTION_RECALL, q) != []
      && Values(failing, filled, ABSTENTION_RECALL, q) != []
      && Mean(Values(failing, filled, ABSTENTION_RECALL, q)) <= Mean(Values(runs, filled, ABSTENTION_RECALL, q))
  {
    var key, run := ABSTENTION_RECALL, runs[r];
    OnlyAnswerTo(run.results, q);
    assert a in AnswersTo(run.results, q);
    FailedContribution(run, a, filled, key, q);
    NoneReported(run.reports, q);
    DeclinesNonNegative(runs, filled, q);
    ValuesAround(runs, r, run, filled, key, q);
    ValuesAround(runs, r, FailAnswer(run, q), filled, key, q);
    assert runs[r := run] == runs;
    var x, y := Values(runs[..r], filled, key, q), Values(runs[r + 1..], filled, key, q);
    var v := RunValues(run, filled, key, q);
    assert |v| == 1;
    assert RunValues(FailAnswer(run, q), filled, key, q) == [0.0];
    PartsNonNegative(x, v, y);
    ZeroLowersMean(x, v, y);
  }
}
