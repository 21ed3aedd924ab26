// What a clustered win rate says in counts of wins, ties and losses.
module WinRates {
  import opened Options
  import opened Reals
  import opened Listings
  import opened Pairwise

  // ----- Points: a win counts one, a tie a half

  ghost function Points(keys: set<string>, outcomes: Outcomes, c: Criterion): real
    requires keys <= outcomes.Keys && HasCriterion(outcomes, c)
  {
    |KeysWith(keys, outcomes, c, Candidate)| as real + |KeysWith(keys, outcomes, c, Tie)| as real / 2.0
  }

  lemma PointsAdd(keys: set<string>, outcomes: Outcomes, c: Criterion, k: string)
    requires keys <= outcomes.Keys && HasCriterion(outcomes, c) && k in outcomes && k !in keys
    ensures Points(keys + {k}, outcomes, c) == Points(keys, outcomes, c) + Scores(outcomes, c)[k]
  {
    CountOneKey(keys, outcomes, c, k, Candidate);
    CountOneKey(keys, outcomes, c, k, Tie);
  }

  lemma {:induction false} ScoresArePoints(keys: set<string>, outcomes: Outcomes, c: Criterion)
    requires keys <= outcomes.Keys && HasCriterion(outcomes, c)
    ensures SetSum(keys, Scores(outcomes, c)) == Points(keys, outcomes, c)
  {
    if keys == {} {
      assert KeysWith(keys, outcomes, c, Candidate) == {} && KeysWith(keys, outcomes, c, Tie) == {};
    } else {
      var k :| k in keys;
      SetSumPick(keys, Scores(outcomes, c), k);
      ScoresArePoints(keys - {k}, outcomes, c);
      PointsAdd(keys - {k}, outcomes, c, k);
      assert keys - {k} + {k} == keys;
    }
  }

  /** A query's points over its decided pairs. */
  ghost function QueryShare(outcomes: Outcomes, queryOf: map<string, string>, c: Criterion, q: string): real
    requires HasCriterion(outcomes, c) && outcomes.Keys <= queryOf.Keys && q in QueriesOf(outcomes.Keys, queryOf)
  {
    var mine := KeysOf(outcomes.Keys, queryOf, q);
    var k :| k in outcomes.Keys && queryOf[k] == q;
    assert k in mine;
    Points(mine, outcomes, c) / |mine| as real
  }

  ghost function QueryShares(outcomes: Outcomes, queryOf: map<string, string>, c: Criterion): map<string, real>
    requires HasCriterion(outcomes, c) && outcomes.Keys <= queryOf.Keys
  {
    map q | q in QueriesOf(outcomes.Keys, queryOf) :: QueryShare(outcomes, queryOf, c, q)
  }

  lemma SomeQuery(keys: set<string>, queryOf: map<string, string>)
    requires keys <= queryOf.Keys && keys != {}
    ensures |QueriesOf(keys, queryOf)| > 0
  {
    var k :| k in keys;
    assert queryOf[k] in QueriesOf(keys, queryOf);
  }

  /** A win rate is the mean, over the queries, of their points over their decided pairs. */
  lemma RateIsMeanShare(outcomes: Outcomes, queryOf: map<string, string>, c: Criterion)
    requires HasCriterion(outcomes, c) && outcomes.Keys <= queryOf.Keys && outcomes.Keys != {}
    ensures var queries := QueriesOf(outcomes.Keys, queryOf);
      |queries| > 0
      && WinRate(Scores(outcomes, c), queryOf) == SetSum(queries, QueryShares(outcomes, queryOf, c)) / |queries| as real
  {
    var scores, queries := Scores(outcomes, c), QueriesOf(outcomes.Keys, queryOf);
    SomeQuery(outcomes.Keys, queryOf);
    forall q | q in queries
      ensures QueryMeans(scores, queryOf)[q] == QueryShares(outcomes, queryOf, c)[q]
    {
      ScoresArePoints(KeysOf(outcomes.Keys, queryOf, q), outcomes, c);
    }
    SetSumSame(queries, QueryMeans(scores, queryOf), QueryShares(outcomes, queryOf, c));
  }

  // ----- One decided pair per query

  ghost predicate OneEach(keys: set<string>, queryOf: map<string, string>)
    requires keys <= queryOf.Keys
  {
    forall k, l :: k in keys && l in keys && k != l ==> queryOf[k] != queryOf[l]
  }

  lemma {:induction false} SumByQuery(keys: set<string>, f: map<string, real>, queryOf: map<string, string>,
                                      g: map<string, real>)
    requires keys <= f.Keys && keys <= queryOf.Keys && OneEach(keys, queryOf)
    requires QueriesOf(keys, queryOf) <= g.Keys && forall k :: k in keys ==> g[queryOf[k]] == f[k]
    ensures SetSum(QueriesOf(keys, queryOf), g) == SetSum(keys, f)
    ensures |QueriesOf(keys, queryOf)| == |keys|
  {
    if keys != {} {
      var k :| k in keys;
      var rest := keys - {k};
      assert QueriesOf(rest, queryOf) == QueriesOf(keys, queryOf) - {queryOf[k]};
      assert queryOf[k] in QueriesOf(keys, queryOf);
      SumByQuery(rest, f, queryOf, g);
      SetSumPick(keys, f, k);
      SetSumPick(QueriesOf(keys, queryOf), g, queryOf[k]);
    }
  }

  lemma OwnShare(outcomes: Outcomes, queryOf: map<string, string>, c: Criterion, k: string)
    requires HasCriterion(outcomes, c) && outcomes.Keys <= queryOf.Keys && OneEach(outcomes.Keys, queryOf)
    requires k in outcomes
    ensures queryOf[k] in QueriesOf(outcomes.Keys, queryOf)
    ensures QueryShare(outcomes, queryOf, c, queryOf[k]) == Scores(outcomes, c)[k]
  {
    assert KeysOf(outcomes.Keys, queryOf, queryOf[k]) == {k};
    PointsAdd({}, outcomes, c, k);
    assert {} + {k} == {k};
    assert KeysWith({}, outcomes, c, Candidate) == {} && KeysWith({}, outcomes, c, Tie) == {};
  }

  /** With one decided pair per query the rate is the points over the decided pairs. */
  lemma SinglesRate(outcomes: Outcomes, queryOf: map<string, string>, c: Criterion)
    requires HasCriterion(outcomes, c) && outcomes.Keys <= queryOf.Keys && OneEach(outcomes.Keys, queryOf)
    requires outcomes.Keys != {}
    ensures |outcomes.Keys| > 0
    ensures WinRate(Scores(outcomes, c), queryOf) == Points(outcomes.Keys, outcomes, c) / |outcomes.Keys| as real
  {
    var keys, shares := outcomes.Keys, QueryShares(outcomes, queryOf, c);
    RateIsMeanShare(outcomes, queryOf, c);
    forall k | k in keys
      ensures queryOf[k] in QueriesOf(keys, queryOf) && shares[queryOf[k]] == Scores(outcomes, c)[k]
    {
      OwnShare(outcomes, queryOf, c, k);
    }
    SumByQuery(keys, Scores(outcomes, c), queryOf, shares);
    ScoresArePoints(keys, outcomes, c);
  }

  lemma {:induction false} EveryOutcomeCounted(order: seq<string>, outcomes: Outcomes, c: Criterion)
    requires forall k :: k in order ==> k in outcomes && c in outcomes[k]
    ensures Won(order, outcomes, c, Candidate) + Won(order, outcomes, c, Baseline) + Won(order, outcomes, c, Tie) == |order|
  {
    if order != [] {
      EveryOutcomeCounted(order[..|order| - 1], outcomes, c);
    }
  }

  /** A win counts one and a tie a half, over the decided pairs. */
  ghost function PlainRate(wins: nat, losses: nat, ties: nat): real
    requires wins + losses + ties > 0
  {
    (wins as real + ties as real / 2.0) / (wins + losses + ties) as real
  }

  lemma PointsInCounts(d: Dict, c: Criterion, wins: nat, losses: nat, ties: nat)
    requires HasCriterion(d.entries, c) && Lists(d.order, d.entries.Keys)
    requires wins == Won(d.order, d.entries, c, Candidate) && losses == Won(d.order, d.entries, c, Baseline)
    requires ties == Won(d.order, d.entries, c, Tie)
    ensures Points(d.entries.Keys, d.entries, c) == wins as real + ties as real / 2.0
    ensures |d.entries.Keys| == wins + losses + ties
  {
    WonIsNumberOfKeys(d.order, d.entries.Keys, d.entries, c, Candidate);
    WonIsNumberOfKeys(d.order, d.entries.Keys, d.entries, c, Tie);
    EveryOutcomeCounted(d.order, d.entries, c);
    ListedSize(d.order, d.entries.Keys);
  }

  lemma SameQuotient(rate: real, points: real, keys: nat, wins: nat, losses: nat, ties: nat)
    requires keys > 0 && rate == points / keys as real
    requires points == wins as real + ties as real / 2.0 && keys == wins + losses + ties
    ensures rate == PlainRate(wins, losses, ties)
  {
  }

  /** With one decided pair per query the rate is (wins + ties / 2) / (wins + losses + ties) of the same tally. */
  lemma RateOfSingles(criteria: set<Criterion>, d: Dict, queryOf: map<string, string>,
                      agreements: seq<map<Criterion, bool>>, c: Criterion)
    requires Ready(criteria, d, queryOf, true, agreements) && c in criteria && OneEach(d.entries.Keys, queryOf)
    ensures var t := TallyOf(criteria, d, queryOf, true, agreements, c);
      t.wins + t.losses + t.ties > 0 && t.rate == Some(PlainRate(t.wins, t.losses, t.ties))
  {
    var t := TallyOf(criteria, d, queryOf, true, agreements, c);
    SinglesRate(d.entries, queryOf, c);
    PointsInCounts(d, c, t.wins, t.losses, t.ties);
    SameQuotient(t.rate.value, Points(d.entries.Keys, d.entries, c), |d.entries.Keys|, t.wins, t.losses, t.ties);
  }

  // ----- Every decided pair alike

  lemma {:induction false} SumOfSame(s: set<string>, f: map<string, real>, x: real)
    requires s <= f.Keys && forall k :: k in s ==> f[k] == x
    ensures SetSum(s, f) == Times(|s|, x)
  {
    if s != {} {
      var k :| k in s;
      SetSumPick(s, f, k);
      SumOfSame(s - {k}, f, x);
      assert |s| == |s - {k}| + 1;
    }
  }

  lemma MeanOfSame(s: set<string>, f: map<string, real>, x: real)
    requires s <= f.Keys && s != {} && forall k :: k in s ==> f[k] == x
    ensures |s| > 0 && SetSum(s, f) / |s| as real == x
  {
    SumOfSame(s, f, x);
    TimesIsProduct(|s|, x);
    Quotient(|s| as real, x);
  }

  lemma Quotient(n: real, x: real)
    requires n > 0.0
    ensures n * x / n == x
  {
  }

  lemma RateOfSame(outcomes: Outcomes, queryOf: map<string, string>, c: Criterion, x: real)
    requires HasCriterion(outcomes, c) && outcomes.Keys <= queryOf.Keys && outcomes.Keys != {}
    requires forall k :: k in outcomes ==> Scores(outcomes, c)[k] == x
    ensures WinRate(Scores(outcomes, c), queryOf) == x
  {
    var scores, queries := Scores(outcomes, c), QueriesOf(outcomes.Keys, queryOf);
    SomeQuery(outcomes.Keys, queryOf);
    forall q | q in queries
      ensures QueryMeans(scores, queryOf)[q] == x
    {
      var k :| k in outcomes.Keys && queryOf[k] == q;
      assert k in KeysOf(outcomes.Keys, queryOf, q);
      MeanOfSame(KeysOf(outcomes.Keys, queryOf, q), scores, x);
    }
    MeanOfSame(queries, QueryMeans(scores, queryOf), x);
  }

  lemma {:induction false} AllAlike(order: seq<string>, outcomes: Outcomes, c: Criterion, o: Outcome)
    requires forall k :: k in order ==> k in outcomes && c in outcomes[k]
    requires Won(order, outcomes, c, o) >= |order|
    ensures Won(order, outcomes, c, o) == |order| && forall k :: k in order ==> outcomes[k][c] == o
  {
    if order != [] {
      var n := |order| - 1;
      AtMostAll(order[..n], outcomes, c, o);
      AllAlike(order[..n], outcomes, c, o);
      assert order == order[..n] + [order[n]];
    }
  }

  lemma {:induction false} AtMostAll(order: seq<string>, outcomes: Outcomes, c: Criterion, o: Outcome)
    requires forall k :: k in order ==> k in outcomes && c in outcomes[k]
    ensures Won(order, outcomes, c, o) <= |order|
  {
    if order != [] {
      AtMostAll(order[..|order| - 1], outcomes, c, o);
    }
  }

  /** The rate is 1 when the candidate wins every decided pair, 0 when the baseline does, and 1/2 when all tie. */
  lemma RateOfSweep(criteria: set<Criterion>, d: Dict, queryOf: map<string, string>,
                    agreements: seq<map<Criterion, bool>>, c: Criterion)
    requires Ready(criteria, d, queryOf, true, agreements) && c in criteria
    ensures var t := TallyOf(criteria, d, queryOf, true, agreements, c);
      && (t.losses == 0 && t.ties == 0 ==> t.rate == Some(1.0))
      && (t.wins == 0 && t.ties == 0 ==> t.rate == Some(0.0))
      && (t.wins == 0 && t.losses == 0 ==> t.rate == Some(0.5))
  {
    var t := TallyOf(criteria, d, queryOf, true, agreements, c);
    EveryOutcomeCounted(d.order, d.entries, c);
    if t.losses == 0 && t.ties == 0 {
      AllAlike(d.order, d.entries, c, Candidate);
      RateOfSame(d.entries, queryOf, c, 1.0);
    }
    if t.wins == 0 && t.ties == 0 {
      AllAlike(d.order, d.entries, c, Baseline);
      RateOfSame(d.entries, queryOf, c, 0.0);
    }
    if t.wins == 0 && t.losses == 0 {
      AllAlike(d.order, d.entries, c, Tie);
      RateOfSame(d.entries, queryOf, c, 0.5);
    }
  }

  // ----- One outcome turned

  /** The same decisions but for one pair's on the criterion, which the candidate now wins. */
  ghost predicate Turned(outcomes: Outcomes, turned: Outcomes, c: Criterion, k: string)
    requires HasCriterion(outcomes, c) && HasCriterion(turned, c)
  {
    && outcomes.Keys == turned.Keys && k in outcomes
    && outcomes[k][c] == Baseline && turned[k][c] == Candidate
    && forall l :: l in outcomes && l != k ==> turned[l][c] == outcomes[l][c]
  }

  lemma OneMoreAdds(s: set<string>, f: map<string, real>, g: map<string, real>, k: string, x: real)
    requires s <= f.Keys && s <= g.Keys && k in s && g[k] == f[k] + x
    requires forall l :: l in s && l != k ==> g[l] == f[l]
    ensures SetSum(s, g) == SetSum(s, f) + x
  {
    SetSumPick(s, f, k);
    SetSumPick(s, g, k);
    SetSumSame(s - {k}, f, g);
  }

  lemma QuotientAdds(total: real, x: real, n: real)
    requires n > 0.0
    ensures (total + x) / n == total / n + x / n
  {
  }

  lemma MeanAdds(s: set<string>, f: map<string, real>, g: map<string, real>, k: string, x: real)
    requires s <= f.Keys && s <= g.Keys && k in s && g[k] == f[k] + x
    requires forall l :: l in s && l != k ==> g[l] == f[l]
    ensures |s| > 0 && SetSum(s, g) / |s| as real == SetSum(s, f) / |s| as real + x / |s| as real
  {
    OneMoreAdds(s, f, g, k, x);
    QuotientAdds(SetSum(s, f), x, |s| as real);
  }

  /** Turning one lost pair into a won one raises its query's mean by one over its decided pairs. */
  lemma QueryMeanRises(outcomes: Outcomes, turned: Outcomes, queryOf: map<string, string>, c: Criterion, k: string)
    requires HasCriterion(outcomes, c) && HasCriterion(turned, c) && Turned(outcomes, turned, c, k)
    requires outcomes.Keys <= queryOf.Keys
    ensures queryOf[k] in QueriesOf(outcomes.Keys, queryOf) && |KeysOf(outcomes.Keys, queryOf, queryOf[k])| > 0
    ensures QueryMean(Scores(turned, c), queryOf, queryOf[k])
         == QueryMean(Scores(outcomes, c), queryOf, queryOf[k])
            + 1.0 / |KeysOf(outcomes.Keys, queryOf, queryOf[k])| as real
  {
    var mine := KeysOf(outcomes.Keys, queryOf, queryOf[k]);
    assert k in mine;
    MeanAdds(mine, Scores(outcomes, c), Scores(turned, c), k, 1.0);
  }

  lemma OtherMeansStay(outcomes: Outcomes, turned: Outcomes, queryOf: map<string, string>, c: Criterion, k: string,
                       q: string)
    requires HasCriterion(outcomes, c) && HasCriterion(turned, c) && Turned(outcomes, turned, c, k)
    requires outcomes.Keys <= queryOf.Keys && q in QueriesOf(outcomes.Keys, queryOf) && q != queryOf[k]
    ensures QueryMean(Scores(turned, c), queryOf, q) == QueryMean(Scores(outcomes, c), queryOf, q)
  {
    var mine := KeysOf(outcomes.Keys, queryOf, q);
    SetSumSame(mine, Scores(outcomes, c), Scores(turned, c));
  }

  /**
   * Turning one lost pair into a won one raises the rate by one over the query's decided pairs and over
   * the queries: a query weighs the same however often it was decided.
   */
  lemma WinRaisesRate(criteria: set<Criterion>, d: Dict, e: Dict, queryOf: map<string, string>,
                      a: seq<map<Criterion, bool>>, b: seq<map<Criterion, bool>>, c: Criterion, k: string)
    requires Ready(criteria, d, queryOf, true, a) && Ready(criteria, e, queryOf, true, b) && c in criteria
    requires Turned(d.entries, e.entries, c, k)
    ensures var rate := TallyOf(criteria, d, queryOf, true, a, c).rate;
      var raised := TallyOf(criteria, e, queryOf, true, b, c).rate;
      var repeats := |KeysOf(d.entries.Keys, queryOf, queryOf[k])|;
      var queries := |QueriesOf(d.entries.Keys, queryOf)|;
      && rate.Some? && raised.Some? && repeats > 0 && queries > 0
      && raised.value == rate.value + 1.0 / repeats as real / queries as real
  {
    var f, g := Scores(d.entries, c), Scores(e.entries, c);
    var queries := QueriesOf(d.entries.Keys, queryOf);
    QueryMeanRises(d.entries, e.entries, queryOf, c, k);
    forall q | q in queries && q != queryOf[k]
      ensures QueryMeans(g, queryOf)[q] == QueryMeans(f, queryOf)[q]
    {
      OtherMeansStay(d.entries, e.entries, queryOf, c, k, q);
    }
    MeanAdds(queries, QueryMeans(f, queryOf), QueryMeans(g, queryOf), queryOf[k],
             1.0 / |KeysOf(d.entries.Keys, queryOf, queryOf[k])| as real);
  }
}
