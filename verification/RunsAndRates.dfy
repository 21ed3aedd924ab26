// What a per-query mean says of the runs behind it: it lies among their values, it does not depend on
// their order, and what a failed answer does to it on a rate that is better the lower it is.
module RunsAndRates {
  import opened Comparison
  import opened Options
  import opened Reals

  // ----- A mean of values

  lemma {:induction false} SumWithin(v: seq<real>, low: real, high: real)
    requires forall i :: 0 <= i < |v| ==> low <= v[i] <= high
    ensures Times(|v|, low) <= Sum(v) <= Times(|v|, high)
  {
    if v != [] {
      SumWithin(v[1..], low, high);
    }
  }

  lemma QuotientWithin(low: real, mean: real, high: real, total: real, n: real)
    requires n > 0.0 && mean == total / n && n * low <= total <= n * high
    ensures low <= mean <= high
  {
    assert mean * n == total;
    assert n * (mean - low) >= 0.0 && n * (high - mean) >= 0.0;
  }

  /** A mean is no lower than the least value and no higher than the greatest. */
  lemma MeanWithin(v: seq<real>, low: real, high: real)
    requires v != [] && forall i :: 0 <= i < |v| ==> low <= v[i] <= high
    ensures low <= Mean(v) <= high
  {
    SumWithin(v, low, high);
    TimesIsProduct(|v|, low);
    TimesIsProduct(|v|, high);
    QuotientWithin(low, Mean(v), high, Sum(v), |v| as real);
  }

  // ----- The order of the runs

  lemma ValuesOfOne(run: Run, filled: set<Key>, key: Key, q: QueryId)
    ensures Values([run], filled, key, q) == RunValues(run, filled, key, q)
  {
    assert [run][..0] == [];
  }

  lemma ValuesInThree(a: seq<Run>, run: Run, b: seq<Run>, filled: set<Key>, key: Key, q: QueryId)
    ensures multiset(Values(a + [run] + b, filled, key, q))
         == multiset(RunValues(run, filled, key, q)) + multiset(Values(a + b, filled, key, q))
  {
    ValuesConcat(a + [run], b, filled, key, q);
    ValuesConcat(a, [run], filled, key, q);
    ValuesConcat(a, b, filled, key, q);
    ValuesOfOne(run, filled, key, q);
  }

  lemma FirstOfAll(runs: seq<Run>, filled: set<Key>, key: Key, q: QueryId)
    requires runs != []
    ensures multiset(Values(runs, filled, key, q))
         == multiset(RunValues(runs[0], filled, key, q)) + multiset(Values(runs[1..], filled, key, q))
  {
    ValuesConcat([runs[0]], runs[1..], filled, key, q);
    ValuesOfOne(runs[0], filled, key, q);
    assert [runs[0]] + runs[1..] == runs;
  }

  lemma {:induction false} SameValues(runs: seq<Run>, others: seq<Run>, filled: set<Key>, key: Key, q: QueryId)
    requires multiset(runs) == multiset(others)
    ensures multiset(Values(runs, filled, key, q)) == multiset(Values(others, filled, key, q))
  {
    if runs == [] {
      assert |multiset(others)| == 0;
    } else {
      var i := SplitAtHead(runs, others);
      var before, after := others[..i], others[i + 1..];
      SameValues(runs[1..], before + after, filled, key, q);
      FirstOfAll(runs, filled, key, q);
      ValuesInThree(before, runs[0], after, filled, key, q);
    }
  }

  /** The value the comparison reads for a query does not depend on the order of the strategy's runs. */
  lemma RunOrderIrrelevant(runs: seq<Run>, others: seq<Run>, filled: set<Key>, key: Key, q: QueryId)
    requires multiset(runs) == multiset(others)
    ensures var v, w := Values(runs, filled, key, q), Values(others, filled, key, q);
      |v| == |w| && (v != [] ==> Mean(v) == Mean(w))
  {
    var v, w := Values(runs, filled, key, q), Values(others, filled, key, q);
    SameValues(runs, others, filled, key, q);
    assert |v| == |multiset(v)| && |w| == |multiset(w)|;
    OrderIrrelevant(v, w, 0.0);
  }

  // ----- Abstention

  /** How many answers of a run to the query there are on which it should have declined, and on how many it did. */
  ghost function ShouldDecline(results: seq<Answer>, q: QueryId): nat {
    if results == [] then 0
    else
      var a := results[|results| - 1];
      ShouldDecline(results[..|results| - 1], q) + if a.query == q && a.unanswerable then 1 else 0
  }

  ghost function DidDecline(results: seq<Answer>, q: QueryId): nat {
    if results == [] then 0
    else
      var a := results[|results| - 1];
      DidDecline(results[..|results| - 1], q)
      + if a.query == q && a.unanswerable && a.abstained && !a.error then 1 else 0
  }

  ghost function ShouldDeclineAll(runs: seq<Run>, q: QueryId): nat {
    if runs == [] then 0
    else ShouldDeclineAll(runs[..|runs| - 1], q) + ShouldDecline(runs[|runs| - 1].results, q)
  }

  ghost function DidDeclineAll(runs: seq<Run>, q: QueryId): nat {
    if runs == [] then 0 else DidDeclineAll(runs[..|runs| - 1], q) + DidDecline(runs[|runs| - 1].results, q)
  }

  const DECLINES := Key("abstention", "recall")

  lemma {:induction false} NoneScored(scores: seq<Score>)
    ensures ScoreValues(scores, DECLINES) == []
  {
    if scores != [] {
      NoneScored(scores[..|scores| - 1]);
    }
  }

  lemma {:induction false} NoneReported(reports: seq<Report>, q: QueryId)
    ensures ReportValues(reports, DECLINES, q) == []
  {
    if reports != [] {
      NoneReported(reports[..|reports| - 1], q);
      NoneScored(reports[|reports| - 1].scores);
    }
  }

  lemma {:induction false} DeclinesOfRun(results: seq<Answer>, filled: set<Key>, q: QueryId)
    requires DECLINES !in filled
    ensures var v := ResultValues(results, filled, DECLINES, q);
      |v| == ShouldDecline(results, q) && Sum(v) == DidDecline(results, q) as real
  {
    if results != [] {
      var n := |results| - 1;
      DeclinesOfRun(results[..n], filled, q);
      SumConcat(ResultValues(results[..n], filled, DECLINES, q), AnswerValues(results[n], filled, DECLINES, q));
      assert Sum([1.0]) == 1.0 && Sum([0.0]) == 0.0;
    }
  }

  /**
   * The abstention recall of a query is over its unanswerable answers, and counts those that declined
   * without having failed.
   */
  lemma {:induction false} DeclinesCounted(runs: seq<Run>, filled: set<Key>, q: QueryId)
    requires DECLINES !in filled
    ensures var v := Values(runs, filled, DECLINES, q);
      |v| == ShouldDeclineAll(runs, q) && Sum(v) == DidDeclineAll(runs, q) as real
  {
    if runs != [] {
      var n := |runs| - 1;
      DeclinesCounted(runs[..n], filled, q);
      NoneReported(runs[n].reports, q);
      DeclinesOfRun(runs[n].results, filled, q);
      var own := ResultValues(runs[n].results, filled, DECLINES, q);
      assert RunValues(runs[n], filled, DECLINES, q) == own;
      SumConcat(Values(runs[..n], filled, DECLINES, q), own);
    }
  }

  /** A failed answer is never filled on it: it is no metric of an evaluator. */
  lemma DeclinesAreNotFilled(runs: map<Strategy, seq<Run>>, s: Strategy, q: QueryId)
    requires s in runs
    ensures DECLINES !in FailedScores(runs, s, q)
  {
  }

  // ----- Rates that are better the lower they are, and measures that are no score

  /** A failed answer counted 0 on these would count as perfect. */
  ghost predicate NotFilled(key: Key) {
    || key.name == "assertion_contradiction_rate" || key.name == "negative_assertion_violation_rate"
    || key.name == "answer_length" || key.name == "attributable_fraction"
  }

  /** The values the other runs reported for the query. */
  ghost function OtherValues(runs: seq<Run>, r: nat, key: Key, q: QueryId): seq<real>
    requires r < |runs|
  {
    Values(runs[..r], {}, key, q) + Values(runs[r + 1..], {}, key, q)
  }

  lemma OnlyThese(key: Key)
    ensures key.name in UNFILLED <==> NotFilled(key)
    ensures NotFilled(key) ==> key != ABSTENTION_RECALL
  {
  }

  /** The failed answer leaves no value of its own. */
  lemma FailureAddsNothing(runs: seq<Run>, r: nat, key: Key, q: QueryId, a: Answer)
    requires r < |runs| && AnswersTo(runs[r].results, q) == [a] && NotFilled(key)
    ensures Values(runs[r := FailAnswer(runs[r], q)], {}, key, q) == OtherValues(runs, r, key, q)
    ensures Values(runs, {}, key, q)
         == Values(runs[..r], {}, key, q) + ReportValues(runs[r].reports, key, q) + Values(runs[r + 1..], {}, key, q)
  {
    var run := runs[r];
    OnlyThese(key);
    FailedContribution(run, a, {}, key, q);
    assert AnswerValues(a, {}, key, q) == [] && AnswerValues(a.(error := true), {}, key, q) == [];
    assert ReportValues(run.reports, key, q) + [] == ReportValues(run.reports, key, q);
    ValuesAround(runs, r, run, {}, key, q);
    ValuesAround(runs, r, FailAnswer(run, q), {}, key, q);
    assert runs[r := run] == runs;
    assert Values(runs[..r], {}, key, q) + [] == Values(runs[..r], {}, key, q);
  }

  lemma NothingIsFilled(runs: map<Strategy, seq<Run>>, s: Strategy, key: Key, q: QueryId)
    requires s in runs && NotFilled(key)
    ensures ComparedMean(runs, s, key, q)
         == var v := Values(runs[s], {}, key, q); if v == [] then None else Some(Mean(v))
  {
    OnlyThese(key);
    NeverFilled(runs, s, key, q);
    SameFillOverRuns(runs[s], FailedScores(runs, s, q), {}, key, q);
  }

  /** On such a measure a failed answer leaves the query the mean of the other runs' values, or none. */
  lemma FailureLeavesTheOthers(runs: map<Strategy, seq<Run>>, s: Strategy, r: nat, key: Key, q: QueryId, a: Answer)
    requires s in runs && r < |runs[s]| && AnswersTo(runs[s][r].results, q) == [a] && NotFilled(key)
    ensures var others := OtherValues(runs[s], r, key, q);
      ComparedMean(WithFailure(runs, s, r, q), s, key, q) == if others == [] then None else Some(Mean(others))
  {
    NothingIsFilled(WithFailure(runs, s, r, q), s, key, q);
    FailureAddsNothing(runs[s], r, key, q, a);
  }

  lemma Weighted(a: real, b: real, c: real, n: real, m: real)
    requires n > 0.0 && m > 0.0 && c * (n + m) == a * n + b * m
    ensures a < c <==> a < b
  {
    assert (c - a) * (n + m) == (b - a) * m;
    if a < b {
      assert (b - a) * m > 0.0;
    } else {
      assert (b - a) * m <= 0.0;
    }
  }

  lemma WeightedMeans(s: real, t: real, n: real, m: real)
    requires n > 0.0 && m > 0.0
    ensures s / n < (s + t) / (n + m) <==> s / n < t / m
  {
    var a, b, c := s / n, t / m, (s + t) / (n + m);
    assert a * n == s && b * m == t && c * (n + m) == s + t;
    Weighted(a, b, c, n, m);
  }

  lemma SumsOfBoth(x: seq<real>, v: seq<real>, y: seq<real>)
    ensures Sum(x + v + y) == Sum(x + y) + Sum(v) && |x + v + y| == |x + y| + |v|
  {
    SumConcat(x, y);
    SumConcat(x, v);
    SumConcat(x + v, y);
  }

  lemma MeanOfBoth(x: seq<real>, v: seq<real>, y: seq<real>)
    requires v != [] && x + y != []
    ensures Mean(x + y) < Mean(x + v + y) <==> Mean(x + y) < Mean(v)
  {
    SumsOfBoth(x, v, y);
    WeightedMeans(Sum(x + y), Sum(v), |x + y| as real, |v| as real);
  }

  /**
   * So failing improves the strategy there, which is to lower the rate, exactly when another run has a
   * value for the query and the failed answer's own were above the mean of the others'. With no other
   * value the query leaves the pairs.
   */
  lemma FailureImprovesIff(runs: map<Strategy, seq<Run>>, s: Strategy, r: nat, key: Key, q: QueryId, a: Answer)
    requires s in runs && r < |runs[s]| && AnswersTo(runs[s][r].results, q) == [a] && NotFilled(key)
    requires ReportValues(runs[s][r].reports, key, q) != []
    ensures var before, after := ComparedMean(runs, s, key, q), ComparedMean(WithFailure(runs, s, r, q), s, key, q);
      var own, others := ReportValues(runs[s][r].reports, key, q), OtherValues(runs[s], r, key, q);
      && before.Some? && (after.None? <==> others == [])
      && (after.Some? ==> (after.value < before.value <==> Mean(own) > Mean(others)))
  {
    var x, y := Values(runs[s][..r], {}, key, q), Values(runs[s][r + 1..], {}, key, q);
    var v := ReportValues(runs[s][r].reports, key, q);
    NothingIsFilled(runs, s, key, q);
    FailureAddsNothing(runs[s], r, key, q, a);
    FailureLeavesTheOthers(runs, s, r, key, q, a);
    if x + y != [] {
      MeanOfBoth(x, v, y);
    }
  }

  // ----- Two runs, the worse of which fails

  const RATE: MetricKey := Key("assertion", "assertion_contradiction_rate")

  ghost function Rated(rate: real): Run {
    Run([Report("q", [Score(RATE, rate)], {})], [Answer("q", false, false, false, None, None)])
  }

  lemma RatedValues(rate: real)
    ensures ReportValues(Rated(rate).reports, RATE, "q") == [rate]
    ensures Values([Rated(rate)], {}, RATE, "q") == [rate]
    ensures AnswersTo(Rated(rate).results, "q") == Rated(rate).results
  {
    var run := Rated(rate);
    assert run.reports[..0] == [] && run.reports[0].scores[..0] == [] && run.results[..0] == [] && [run][..0] == [];
    assert ScoreValues(run.reports[0].scores, RATE) == [rate];
    assert ResultValues(run.results, {}, RATE, "q") == [];
  }

  /** Of two runs the one with the higher contradiction rate fails, and the strategy's rate falls to the other's. */
  lemma FailureCanImprove(x: real, y: real)
    requires x > y
    ensures var runs := map["s" := [Rated(x), Rated(y)]];
      var before, after := ComparedMean(runs, "s", RATE, "q"), ComparedMean(WithFailure(runs, "s", 0, "q"), "s", RATE, "q");
      before.Some? && after.Some? && after.value == y < before.value
  {
    var runs := map["s" := [Rated(x), Rated(y)]];
    RatedValues(x);
    RatedValues(y);
    assert runs["s"][..0] == [] && runs["s"][1..] == [Rated(y)];
    assert OtherValues(runs["s"], 0, RATE, "q") == [y];
    MeanWithin([x], x, x);
    MeanWithin([y], y, y);
    FailureLeavesTheOthers(runs, "s", 0, RATE, "q", Rated(x).results[0]);
    FailureImprovesIff(runs, "s", 0, RATE, "q", Rated(x).results[0]);
  }
}
