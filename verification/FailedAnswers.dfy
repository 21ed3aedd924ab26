// What a failed answer does to the comparison's deltas: it never raises the mean, and moves no
// query but its own.
module FailedAnswers {
  import opened Options
  import opened Comparison
  import opened Deltas
  import opened RowViews

  lemma ScoredIsQueried(runs: map<Strategy, seq<Run>>, q: QueryId)
    ensures ScoredKeys(runs, q) != {} ==> q in Queries(runs)
  {
    if ScoredKeys(runs, q) != {} {
      var k :| k in ScoredKeys(runs, q);
      var s, run: Run :| s in runs && run in runs[s] && k in ReportedKeys(run, q);
      var report: Report, score: Score :| report in run.reports && report.query == q && score in report.scores
          && score.key == k;
    }
  }

  lemma MeanOfRuns(m: Table<real>, runs: seq<Run>, failed: map<QueryId, set<Key>>, key: Key, q: QueryId)
    requires IsMeansOfRuns(m, runs, failed)
    ensures Get(ColumnAt(m, key), q) ==
      var v := QueryValues(runs, failed, key, q); if v == [] then None else Some(Mean(v))
  {
  }

  lemma FilledIsFailed(runs: map<Strategy, seq<Run>>, s: Strategy, q: QueryId)
    requires s in runs
    ensures Filled(FailedMap(runs, s), q) == FailedScores(runs, s, q)
  {
    ScoredIsQueried(runs, q);
  }

  /** The tables hold the means the comparison reads. */
  lemma MeanAt(means: map<Strategy, Table<real>>, runs: map<Strategy, seq<Run>>, s: Strategy, key: Key, q: QueryId)
    requires AreMetricMeans(means, runs) && s in runs
    ensures Get(ColumnAt(means[s], key), q) == ComparedMean(runs, s, key, q)
  {
    FilledIsFailed(runs, s, q);
    MeanOfRuns(means[s], runs[s], FailedMap(runs, s), key, q);
  }

  lemma {:induction false} TotalLess(m: map<QueryId, real>, m': map<QueryId, real>)
    requires m.Keys == m'.Keys && forall q :: q in m ==> m[q] <= m'[q]
    ensures Total(m) <= Total(m')
  {
    if m != map[] {
      var q :| q in m;
      TotalSplits(m, q);
      TotalSplits(m', q);
      TotalLess(m - {q}, m' - {q});
    } else {
      assert m' == map[];
    }
  }

  lemma DivideLess(x: real, y: real, n: nat)
    requires x <= y && n > 0
    ensures x / n as real <= y / n as real
  {
    var a, b := x / n as real, y / n as real;
    assert x == a * n as real && y == b * n as real;
    assert (b - a) * n as real >= 0.0;
  }

  /**
   * The strategy's answer to q in run r fails, on a metric it still scores on some answer and that some
   * run still scored q on, with at most one value in that run and no negative one.
   */
  ghost predicate Fails(runs: map<Strategy, seq<Run>>, s: Strategy, r: nat, key: Key, q: QueryId, a: Answer) {
    && s in runs && r < |runs[s]| && key != ABSTENTION_RECALL
    && AnswersTo(runs[s][r].results, q) == [a] && !a.error
    && |ReportValues(runs[s][r].reports, key, q)| <= 1
    && NonNegative(Values(runs[s], FailedScores(runs, s, q), key, q))
    && ComparedMean(runs, s, key, q).Some?
    && key in ProducedKeys(WithFailure(runs, s, r, q)[s])
    && key in ScoredKeys(WithFailure(runs, s, r, q), q)
  }

  /** The same queries, with values no higher, and the same but for q's. */
  ghost predicate NoHigher(before: map<QueryId, real>, after: map<QueryId, real>, q: QueryId) {
    before.Keys == after.Keys && forall p :: p in before ==> after[p] <= before[p] && (p != q ==> after[p] == before[p])
  }

  /** Query by query, the two sides' columns differ by no more than before, and at q alone. */
  lemma DifferenceAt(runs: map<Strategy, seq<Run>>, base: Strategy, s: Strategy, r: nat, key: Key, q: QueryId, a: Answer,
                     means: map<Strategy, Table<real>>, failed: map<Strategy, Table<real>>, p: QueryId)
    requires Fails(runs, s, r, key, q, a) && base in runs && base != s
    requires AreMetricMeans(means, runs) && AreMetricMeans(failed, WithFailure(runs, s, r, q))
    ensures var before := Differences(ColumnAt(means[base], key), ColumnAt(means[s], key));
      var after := Differences(ColumnAt(failed[base], key), ColumnAt(failed[s], key));
      && (p in before <==> p in after)
      && (p in before ==> after[p] <= before[p] && (p != q ==> after[p] == before[p]))
  {
    var failing := WithFailure(runs, s, r, q);
    MeanAt(means, runs, base, key, p);
    MeanAt(means, runs, s, key, p);
    MeanAt(failed, failing, base, key, p);
    MeanAt(failed, failing, s, key, p);
    if p == q {
      FailureNeverRaises(runs, s, r, key, q, a);
    } else {
      OtherQueriesUnmoved(runs, s, r, base, key, q, p);
      OtherQueriesUnmoved(runs, s, r, s, key, q, p);
    }
  }

  lemma NoneHigher(runs: map<Strategy, seq<Run>>, base: Strategy, s: Strategy, r: nat, key: Key, q: QueryId, a: Answer,
                   means: map<Strategy, Table<real>>, failed: map<Strategy, Table<real>>)
    requires Fails(runs, s, r, key, q, a) && base in runs && base != s
    requires AreMetricMeans(means, runs) && AreMetricMeans(failed, WithFailure(runs, s, r, q))
    ensures NoHigher(Differences(ColumnAt(means[base], key), ColumnAt(means[s], key)),
                     Differences(ColumnAt(failed[base], key), ColumnAt(failed[s], key)), q)
  {
    var before := Differences(ColumnAt(means[base], key), ColumnAt(means[s], key));
    var after := Differences(ColumnAt(failed[base], key), ColumnAt(failed[s], key));
    forall p: QueryId
      ensures p in before <==> p in after
      ensures p in before ==> after[p] <= before[p] && (p != q ==> after[p] == before[p])
    {
      DifferenceAt(runs, base, s, r, key, q, a, means, failed, p);
    }
  }

  lemma LessMean(d: Delta, e: Delta, q: QueryId)
    requires NoHigher(d.perQuery, e.perQuery, q) && d.perQuery != map[]
    requires d.meanDelta == Total(d.perQuery) / |d.perQuery| as real
             && e.meanDelta == Total(e.perQuery) / |e.perQuery| as real
    ensures |e.perQuery| == |d.perQuery| && e.meanDelta <= d.meanDelta
  {
    assert |e.perQuery.Keys| == |e.perQuery| && |d.perQuery.Keys| == |d.perQuery|;
    TotalLess(e.perQuery, d.perQuery);
    DivideLess(Total(e.perQuery), Total(d.perQuery), |d.perQuery|);
  }

  /**
   * Failing gains nothing: after the failure the delta is over the same queries, no query's value is
   * higher, only q's can change, and so the mean delta is no higher.
   */
  lemma FailureNeverRaisesMeanDelta(runs: map<Strategy, seq<Run>>, base: Strategy, s: Strategy, r: nat, key: Key,
                                    q: QueryId, a: Answer, means: map<Strategy, Table<real>>,
                                    failed: map<Strategy, Table<real>>, d: Delta, e: Delta)
    requires Fails(runs, s, r, key, q, a) && base in runs && base != s
    requires AreMetricMeans(means, runs) && AreMetricMeans(failed, WithFailure(runs, s, r, q))
    requires IsDelta(d, ColumnAt(means[base], key), ColumnAt(means[s], key))
    requires IsDelta(e, ColumnAt(failed[base], key), ColumnAt(failed[s], key))
    ensures NoHigher(d.perQuery, e.perQuery, q) && e.pairs == d.pairs && e.meanDelta <= d.meanDelta
  {
    NoneHigher(runs, base, s, r, key, q, a, means, failed);
    LessMean(d, e, q);
  }
}
