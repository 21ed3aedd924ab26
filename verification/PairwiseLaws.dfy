// What a pairwise comparison promises: exchanging the sides mirrors it, and a judge that only
// looks at the position decides nothing.
module PairwiseLaws {
  import opened Options
  import opened Listings
  import opened Pairwise
  import opened PairwisePairs

  // ----- Exchanging the sides

  /** A judge model: its reply to a question and two answers, in the order read. */
  type Model = (string, string, string) -> Reply

  /** The standard mode: `verdict` is what the model's two orders decide, None when either reply is malformed. */
  ghost predicate JudgedByModel(criteria: set<Criterion>, model: Model, p: Pair, verdict: Option<Judged>) {
    var forward := Verdicts(criteria, model(p.cand.question, p.base.answer, p.cand.answer));
    var backward := Verdicts(criteria, model(p.cand.question, p.cand.answer, p.base.answer));
    if forward.Some? && backward.Some? then
      && verdict.Some? && verdict.value.agreed.Some?
      && Decides(criteria, forward.value, backward.value, verdict.value.outcome, verdict.value.agreed.value)
    else verdict.None?
  }

  ghost predicate Standard(criteria: set<Criterion>, model: Model, judge: Judge) {
    forall i, p :: JudgedByModel(criteria, model, p, judge(i, p))
  }

  lemma VerdictIsUnique(criteria: set<Criterion>, model: Model, p: Pair, v: Option<Judged>, w: Option<Judged>)
    requires JudgedByModel(criteria, model, p, v) && JudgedByModel(criteria, model, p, w)
    ensures v == w
  {
    var forward := Verdicts(criteria, model(p.cand.question, p.base.answer, p.cand.answer));
    var backward := Verdicts(criteria, model(p.cand.question, p.cand.answer, p.base.answer));
    if forward.Some? && backward.Some? {
      DecisionIsUnique(criteria, forward.value, backward.value, v.value.outcome, v.value.agreed.value,
                       w.value.outcome, w.value.agreed.value);
    }
  }

  lemma StandardIsTimeless(criteria: set<Criterion>, model: Model, judge: Judge)
    requires Standard(criteria, model, judge)
    ensures Timeless(judge)
  {
    forall i, j, p
      ensures judge(i, p) == judge(j, p)
    {
      VerdictIsUnique(criteria, model, p, judge(i, p), judge(j, p));
    }
  }

  lemma StandardIsComplete(criteria: set<Criterion>, model: Model, judge: Judge)
    requires Standard(criteria, model, judge)
    ensures Complete(criteria, judge)
  {
    forall i, p | judge(i, p).Some?
      ensures judge(i, p).value.outcome.Keys == criteria
      ensures judge(i, p).value.agreed.Some? ==> judge(i, p).value.agreed.value.Keys == criteria
    {
      assert JudgedByModel(criteria, model, p, judge(i, p));
    }
  }

  /** Both sides were asked the same question. */
  ghost predicate SameQuestions(pairs: seq<Pair>) {
    forall p :: p in pairs ==> p.base.question == p.cand.question
  }

  function MirrorOption(v: Option<map<Criterion, Outcome>>): Option<map<Criterion, Outcome>> {
    match v case Some(outcome) => Some(MirrorAll(outcome)) case None => None
  }

  lemma SwapMirrorsJudgement(criteria: set<Criterion>, model: Model, p: Pair, v: Option<Judged>, w: Option<Judged>)
    requires JudgedByModel(criteria, model, p, v) && JudgedByModel(criteria, model, SwapPair(p), w)
    requires p.base.question == p.cand.question
    ensures v.Some? <==> w.Some?
    ensures v.Some? ==> w.value.outcome == MirrorAll(v.value.outcome) && w.value.agreed == v.value.agreed
  {
    var forward := Verdicts(criteria, model(p.cand.question, p.base.answer, p.cand.answer));
    var backward := Verdicts(criteria, model(p.cand.question, p.cand.answer, p.base.answer));
    if forward.Some? && backward.Some? {
      SwapMirrorsDecision(criteria, forward.value, backward.value, v.value.outcome, v.value.agreed.value);
      DecisionIsUnique(criteria, backward.value, forward.value, w.value.outcome, w.value.agreed.value,
                       MirrorAll(v.value.outcome), v.value.agreed.value);
    }
  }

  lemma SwapMirrorsVerdict(criteria: set<Criterion>, model: Model, judge: Judge, p: Pair)
    requires Standard(criteria, model, judge) && p.base.question == p.cand.question
    ensures VerdictOn(criteria, judge, SwapPair(p)) == MirrorOption(VerdictOn(criteria, judge, p))
  {
    var q := SwapPair(p);
    match FateOf(p) {
      case CandidateError => assert MirrorAll(Uniform(criteria, Baseline)) == Uniform(criteria, Candidate);
      case BaselineError => assert MirrorAll(Uniform(criteria, Candidate)) == Uniform(criteria, Baseline);
      case ToJudge =>
        assert JudgedByModel(criteria, model, p, judge(0, p)) && JudgedByModel(criteria, model, q, judge(0, q));
        SwapMirrorsJudgement(criteria, model, p, judge(0, p), judge(0, q));
      case Skipped =>
      case BothErrors =>
    }
  }

  lemma SwapKeepsDecided(criteria: set<Criterion>, model: Model, judge: Judge,
                         baselines: Repeats, candidates: Repeats, k: string)
    requires AllUnique(baselines) && AllUnique(candidates) && Standard(criteria, model, judge)
    requires SameQuestions(Pairs(baselines, candidates))
    requires k in Decided(criteria, Pairs(baselines, candidates), judge).entries
    ensures k in Decided(criteria, Pairs(candidates, baselines), judge).entries
    ensures Decided(criteria, Pairs(candidates, baselines), judge).entries[k]
            == MirrorAll(Decided(criteria, Pairs(baselines, candidates), judge).entries[k])
    ensures k in QueryOf(Pairs(baselines, candidates)) && k in QueryOf(Pairs(candidates, baselines))
    ensures QueryOf(Pairs(baselines, candidates))[k] == QueryOf(Pairs(candidates, baselines))[k]
  {
    var pairs, swapped := Pairs(baselines, candidates), Pairs(candidates, baselines);
    PairsHaveDistinctKeys(baselines, candidates);
    PairsHaveDistinctKeys(candidates, baselines);
    StandardIsTimeless(criteria, model, judge);
    var p := DecidedHasPair(criteria, pairs, judge, k);
    SwappedPair(baselines, candidates, p);
    DecidedAt(criteria, pairs, judge, p);
    DecidedAt(criteria, swapped, judge, SwapPair(p));
    SwapMirrorsVerdict(criteria, model, judge, p);
    QueryOfAt(pairs, p);
    QueryOfAt(swapped, SwapPair(p));
  }

  lemma {:induction false} QueryOfAt(pairs: seq<Pair>, p: Pair)
    requires KeysDistinct(pairs) && p in pairs
    ensures p.key in QueryOf(pairs) && QueryOf(pairs)[p.key] == p.queryId
  {
    var n := |pairs| - 1;
    assert pairs == pairs[..n] + [pairs[n]];
    assert forall q :: q in pairs[..n] ==> q in pairs;
    if pairs[n].key != p.key {
      QueryOfAt(pairs[..n], p);
    }
  }

  lemma SwapKeepsQuestions(baselines: Repeats, candidates: Repeats)
    requires AllUnique(baselines) && AllUnique(candidates) && SameQuestions(Pairs(baselines, candidates))
    ensures SameQuestions(Pairs(candidates, baselines))
  {
    forall p | p in Pairs(candidates, baselines)
      ensures p.base.question == p.cand.question
    {
      SwappedPair(candidates, baselines, p);
      assert SwapPair(p) in Pairs(baselines, candidates);
    }
  }

  /** Two dictionaries with the same keys and mirrored outcomes, whose keys name the same queries. */
  ghost predicate Mirrored(d: Dict, queryOf: map<string, string>, e: Dict, swappedOf: map<string, string>) {
    && d.entries.Keys == e.entries.Keys
    && d.entries.Keys <= queryOf.Keys && d.entries.Keys <= swappedOf.Keys
    && (forall k :: k in d.entries ==> e.entries[k] == MirrorAll(d.entries[k]))
    && forall k :: k in d.entries ==> queryOf[k] == swappedOf[k]
  }

  /** Exchanging baseline and candidate decides the same pairs, each the other way round. */
  lemma SwapMirrorsOutcomes(criteria: set<Criterion>, model: Model, judge: Judge,
                            baselines: Repeats, candidates: Repeats)
    requires AllUnique(baselines) && AllUnique(candidates) && Standard(criteria, model, judge)
    requires SameQuestions(Pairs(baselines, candidates))
    ensures var pairs, swapped := Pairs(baselines, candidates), Pairs(candidates, baselines);
            Mirrored(Decided(criteria, pairs, judge), QueryOf(pairs), Decided(criteria, swapped, judge), QueryOf(swapped))
  {
    var pairs, swapped := Pairs(baselines, candidates), Pairs(candidates, baselines);
    var d, e := Decided(criteria, pairs, judge).entries, Decided(criteria, swapped, judge).entries;
    SwapKeepsQuestions(baselines, candidates);
    forall k | k in d
      ensures k in e && e[k] == MirrorAll(d[k]) && k in QueryOf(pairs) && k in QueryOf(swapped)
      ensures QueryOf(pairs)[k] == QueryOf(swapped)[k]
    {
      SwapKeepsDecided(criteria, model, judge, baselines, candidates, k);
    }
    forall k | k in e
      ensures k in d
    {
      SwapKeepsDecided(criteria, model, judge, candidates, baselines, k);
    }
  }

  // ----- The mirrored tally

  lemma {:induction false} SumOfComplements(s: set<string>, f: map<string, real>, g: map<string, real>)
    requires s <= f.Keys && s <= g.Keys && forall x :: x in s ==> g[x] == 1.0 - f[x]
    ensures SetSum(s, g) == |s| as real - SetSum(s, f)
    decreases s
  {
    if s != {} {
      var x :| x in s;
      SetSumPick(s, f, x);
      SetSumPick(s, g, x);
      SumOfComplements(s - {x}, f, g);
      assert |s| == |s - {x}| + 1;
    }
  }

  lemma MeanOfComplements(n: real, total: real)
    requires n > 0.0
    ensures (n - total) / n == 1.0 - total / n
  {
    assert (n - total) / n == n / n - total / n;
  }

  ghost predicate Complements(f: map<string, real>, queryOf: map<string, string>,
                              g: map<string, real>, swappedOf: map<string, string>)
  {
    && f.Keys == g.Keys && f.Keys <= queryOf.Keys && f.Keys <= swappedOf.Keys
    && (forall k :: k in f ==> g[k] == 1.0 - f[k])
    && forall k :: k in f ==> queryOf[k] == swappedOf[k]
  }

  lemma QueryMeansComplement(f: map<string, real>, queryOf: map<string, string>,
                             g: map<string, real>, swappedOf: map<string, string>, q: string)
    requires Complements(f, queryOf, g, swappedOf) && q in QueriesOf(f.Keys, queryOf)
    ensures q in QueriesOf(g.Keys, swappedOf)
    ensures QueryMean(g, swappedOf, q) == 1.0 - QueryMean(f, queryOf, q)
  {
    var k :| k in f.Keys && queryOf[k] == q;
    assert k in g.Keys && swappedOf[k] == q;
    var mine := KeysOf(f.Keys, queryOf, q);
    assert KeysOf(g.Keys, swappedOf, q) == mine;
    assert k in mine;
    SumOfComplements(mine, f, g);
    MeanOfComplements(|mine| as real, SetSum(mine, f));
  }

  lemma SameQueries(f: map<string, real>, queryOf: map<string, string>,
                    g: map<string, real>, swappedOf: map<string, string>)
    requires Complements(f, queryOf, g, swappedOf)
    ensures QueriesOf(f.Keys, queryOf) == QueriesOf(g.Keys, swappedOf)
  {
    forall q | q in QueriesOf(f.Keys, queryOf)
      ensures q in QueriesOf(g.Keys, swappedOf)
    {
      QueryMeansComplement(f, queryOf, g, swappedOf, q);
    }
    forall q | q in QueriesOf(g.Keys, swappedOf)
      ensures q in QueriesOf(f.Keys, queryOf)
    {
      var k :| k in g.Keys && swappedOf[k] == q;
      assert k in f.Keys && queryOf[k] == q;
    }
  }

  lemma WinRatesComplement(f: map<string, real>, queryOf: map<string, string>,
                           g: map<string, real>, swappedOf: map<string, string>)
    requires Complements(f, queryOf, g, swappedOf) && f.Keys != {}
    ensures WinRate(f, queryOf) + WinRate(g, swappedOf) == 1.0
  {
    var queries := QueriesOf(f.Keys, queryOf);
    SameQueries(f, queryOf, g, swappedOf);
    forall q | q in queries
      ensures QueryMeans(g, swappedOf)[q] == 1.0 - QueryMeans(f, queryOf)[q]
    {
      QueryMeansComplement(f, queryOf, g, swappedOf, q);
    }
    var k :| k in f.Keys;
    assert queryOf[k] in queries;
    SumOfComplements(queries, QueryMeans(f, queryOf), QueryMeans(g, swappedOf));
    MeanOfComplements(|queries| as real, SetSum(queries, QueryMeans(f, queryOf)));
  }

  lemma MirroredScores(d: Dict, queryOf: map<string, string>, e: Dict, swappedOf: map<string, string>, c: Criterion)
    requires Mirrored(d, queryOf, e, swappedOf) && HasCriterion(d.entries, c)
    ensures HasCriterion(e.entries, c)
    ensures Complements(Scores(d.entries, c), queryOf, Scores(e.entries, c), swappedOf)
  {
    forall k | k in e.entries
      ensures c in e.entries[k] && Score(e.entries[k][c]) == 1.0 - Score(d.entries[k][c])
    {
      assert e.entries[k] == MirrorAll(d.entries[k]);
      assert c in d.entries[k];
    }
  }

  lemma MirroredKeys(keys: set<string>, d: Outcomes, e: Outcomes, c: Criterion, o: Outcome)
    requires keys <= d.Keys && keys <= e.Keys && HasCriterion(d, c) && HasCriterion(e, c)
    requires forall k :: k in keys ==> e[k][c] == Mirror(d[k][c])
    ensures KeysWith(keys, d, c, o) == KeysWith(keys, e, c, Mirror(o))
  {
  }

  lemma MirroredCounts(d: Dict, e: Dict, c: Criterion, o: Outcome)
    requires Lists(d.order, d.entries.Keys) && Lists(e.order, d.entries.Keys)
    requires d.entries.Keys == e.entries.Keys && HasCriterion(d.entries, c) && HasCriterion(e.entries, c)
    requires forall k :: k in d.entries ==> e.entries[k][c] == Mirror(d.entries[k][c])
    ensures Won(d.order, d.entries, c, o) == Won(e.order, e.entries, c, Mirror(o))
  {
    var keys := d.entries.Keys;
    WonIsNumberOfKeys(d.order, keys, d.entries, c, o);
    WonIsNumberOfKeys(e.order, keys, e.entries, c, Mirror(o));
    MirroredKeys(keys, d.entries, e.entries, c, o);
  }

  /** Some pair was judged, whatever the order of the pairs. */
  lemma {:induction false} AnyJudged(toJudge: seq<Pair>, judge: Judge)
    requires Timeless(judge)
    ensures JudgedKeys(toJudge, judge) != [] <==> exists p :: p in toJudge && judge(0, p).Some?
  {
    if toJudge != [] {
      var n := |toJudge| - 1;
      assert toJudge == toJudge[..n] + [toJudge[n]];
      assert judge(n, toJudge[n]) == judge(0, toJudge[n]);
      AnyJudged(toJudge[..n], judge);
    }
  }

  lemma SwapKeepsJudgement(criteria: set<Criterion>, model: Model, judge: Judge, p: Pair)
    requires Standard(criteria, model, judge) && p.base.question == p.cand.question && judge(0, p).Some?
    ensures judge(0, SwapPair(p)).Some?
  {
    var q := SwapPair(p);
    assert JudgedByModel(criteria, model, p, judge(0, p)) && JudgedByModel(criteria, model, q, judge(0, q));
    SwapMirrorsJudgement(criteria, model, p, judge(0, p), judge(0, q));
  }

  lemma JudgedPair(toJudge: seq<Pair>, judge: Judge) returns (p: Pair)
    requires Timeless(judge) && JudgedKeys(toJudge, judge) != []
    ensures p in toJudge && judge(0, p).Some?
  {
    AnyJudged(toJudge, judge);
    p :| p in toJudge && judge(0, p).Some?;
  }

  lemma PairIsJudged(pairs: seq<Pair>, judge: Judge, p: Pair)
    requires Timeless(judge) && p in pairs && FateOf(p) == ToJudge && judge(0, p).Some?
    ensures JudgedKeys(Judgeable(pairs), judge) != []
  {
    JudgeableIsPart(pairs);
    AnyJudged(Judgeable(pairs), judge);
  }

  lemma SwapKeepsJudged(criteria: set<Criterion>, model: Model, judge: Judge,
                        baselines: Repeats, candidates: Repeats)
    requires AllUnique(baselines) && AllUnique(candidates) && Standard(criteria, model, judge)
    requires SameQuestions(Pairs(baselines, candidates))
    requires JudgedKeys(Judgeable(Pairs(baselines, candidates)), judge) != []
    ensures JudgedKeys(Judgeable(Pairs(candidates, baselines)), judge) != []
  {
    StandardIsTimeless(criteria, model, judge);
    var p := JudgedPair(Judgeable(Pairs(baselines, candidates)), judge);
    JudgeableIsPart(Pairs(baselines, candidates));
    SwappedPair(baselines, candidates, p);
    SwapKeepsJudgement(criteria, model, judge, p);
    PairIsJudged(Pairs(candidates, baselines), judge, SwapPair(p));
  }

  /** `t` and `u` are the two sides' views of one criterion. */
  ghost predicate Opposite(t: Tally, u: Tally) {
    && t.wins == u.losses && t.losses == u.wins && t.ties == u.ties
    && (t.rate.Some? <==> u.rate.Some?)
    && (t.rate.Some? ==> t.rate.value + u.rate.value == 1.0)
  }

  lemma MirroredTallies(criteria: set<Criterion>, d: Dict, queryOf: map<string, string>, e: Dict,
                        swappedOf: map<string, string>, anyJudged: bool, a: seq<map<Criterion, bool>>,
                        b: seq<map<Criterion, bool>>, c: Criterion)
    requires Mirrored(d, queryOf, e, swappedOf) && c in criteria
    requires Ready(criteria, d, queryOf, anyJudged, a) && Ready(criteria, e, swappedOf, anyJudged, b)
    ensures Opposite(TallyOf(criteria, d, queryOf, anyJudged, a, c), TallyOf(criteria, e, swappedOf, anyJudged, b, c))
  {
    forall k | k in d.entries
      ensures c in d.entries[k] && c in e.entries[k] && e.entries[k][c] == Mirror(d.entries[k][c])
    {
      assert e.entries[k] == MirrorAll(d.entries[k]);
    }
    MirroredCounts(d, e, c, Candidate);
    MirroredCounts(d, e, c, Baseline);
    MirroredCounts(d, e, c, Tie);
    if anyJudged {
      MirroredScores(d, queryOf, e, swappedOf, c);
      WinRatesComplement(Scores(d.entries, c), queryOf, Scores(e.entries, c), swappedOf);
    }
  }

  /**
   * Exchanging baseline and candidate exchanges wins and losses of every criterion, keeps its
   * ties, and the two clustered win rates sum to 1.
   */
  lemma SwapAntisymmetry(criteria: set<Criterion>, model: Model, judge: Judge, c: Criterion,
                         baselines: Repeats, candidates: Repeats)
    requires AllUnique(baselines) && AllUnique(candidates) && Standard(criteria, model, judge) && c in criteria
    requires SameQuestions(Pairs(baselines, candidates))
    ensures Complete(criteria, judge)
    ensures Opposite(TallyDecided(criteria, Pairs(baselines, candidates), judge, c),
                     TallyDecided(criteria, Pairs(candidates, baselines), judge, c))
  {
    var pairs, swapped := Pairs(baselines, candidates), Pairs(candidates, baselines);
    StandardIsComplete(criteria, model, judge);
    DecidedIsReady(criteria, pairs, judge);
    DecidedIsReady(criteria, swapped, judge);
    SwapMirrorsOutcomes(criteria, model, judge, baselines, candidates);
    SwapKeepsQuestions(baselines, candidates);
    if JudgedKeys(Judgeable(pairs), judge) != [] {
      SwapKeepsJudged(criteria, model, judge, baselines, candidates);
    } else if JudgedKeys(Judgeable(swapped), judge) != [] {
      SwapKeepsJudged(criteria, model, judge, candidates, baselines);
    }
    MirroredTallies(criteria, Decided(criteria, pairs, judge), QueryOf(pairs), Decided(criteria, swapped, judge),
                    QueryOf(swapped), JudgedKeys(Judgeable(pairs), judge) != [],
                    Agreements(Judgeable(pairs), judge), Agreements(Judgeable(swapped), judge), c);
  }

  // ----- A judge that only looks at the position

  /** The model's verdict does not depend on which answer is read first. */
  ghost predicate PositionOnly(model: Model) {
    forall question, x, y :: model(question, x, y) == model(question, y, x)
  }

  /** The model names a position every time, the first one say, and never calls a tie. */
  ghost predicate NeverEven(criteria: set<Criterion>, model: Model) {
    forall question, x, y, c :: c in criteria && Verdicts(criteria, model(question, x, y)).Some? ==>
      Verdicts(criteria, model(question, x, y)).value[c] != Even
  }

  lemma PositionDecidesNothing(criteria: set<Criterion>, model: Model, p: Pair, v: Judged)
    requires JudgedByModel(criteria, model, p, Some(v)) && PositionOnly(model)
    ensures v.outcome == Uniform(criteria, Tie)
    ensures NeverEven(criteria, model) ==> forall c :: c in criteria ==> !v.agreed.value[c]
  {
    var forward := Verdicts(criteria, model(p.cand.question, p.base.answer, p.cand.answer));
    var backward := Verdicts(criteria, model(p.cand.question, p.cand.answer, p.base.answer));
    assert forward == backward;
    forall c | c in criteria
      ensures v.outcome[c] == Tie && (forward.value[c] != Even ==> !v.agreed.value[c])
    {
      assert DecidesOne(forward.value[c], backward.value[c], v.outcome[c], v.agreed.value[c]);
    }
  }

  lemma {:induction false} PositionAgreesOnNothing(criteria: set<Criterion>, model: Model, judge: Judge,
                                                   toJudge: seq<Pair>, c: Criterion)
    requires Standard(criteria, model, judge) && PositionOnly(model) && NeverEven(criteria, model) && c in criteria
    requires forall a :: a in Agreements(toJudge, judge) ==> c in a
    ensures Agreeing(Agreements(toJudge, judge), c) == 0
    ensures |Agreements(toJudge, judge)| == |JudgedKeys(toJudge, judge)|
  {
    if toJudge != [] {
      var n := |toJudge| - 1;
      var before, all := Agreements(toJudge[..n], judge), Agreements(toJudge, judge);
      assert forall a :: a in before ==> a in all;
      PositionAgreesOnNothing(criteria, model, judge, toJudge[..n], c);
      assert JudgedByModel(criteria, model, toJudge[n], judge(n, toJudge[n]));
      if judge(n, toJudge[n]).Some? {
        PositionDecidesNothing(criteria, model, toJudge[n], judge(n, toJudge[n]).value);
        assert all[..|all| - 1] == before;
      } else {
        assert all == before;
      }
    }
  }

  /** A judge that goes by the position ties every pair it judges, and no two orders agree. */
  lemma PositionalJudgeDecidesNothing(criteria: set<Criterion>, model: Model, judge: Judge, c: Criterion,
                                      baselines: Repeats, candidates: Repeats)
    requires AllUnique(baselines) && AllUnique(candidates) && Standard(criteria, model, judge) && c in criteria
    requires PositionOnly(model)
    ensures Complete(criteria, judge)
    ensures var pairs := Pairs(baselines, candidates);
            forall p :: p in pairs && FateOf(p) == ToJudge && judge(0, p).Some? ==>
              Get(Decided(criteria, pairs, judge).entries, p.key) == Some(Uniform(criteria, Tie))
    ensures NeverEven(criteria, model) ==> TallyDecided(criteria, Pairs(baselines, candidates), judge, c).agreeing == 0
  {
    var pairs := Pairs(baselines, candidates);
    StandardIsComplete(criteria, model, judge);
    StandardIsTimeless(criteria, model, judge);
    PairsHaveDistinctKeys(baselines, candidates);
    forall p | p in pairs && FateOf(p) == ToJudge && judge(0, p).Some?
      ensures Get(Decided(criteria, pairs, judge).entries, p.key) == Some(Uniform(criteria, Tie))
    {
      assert JudgedByModel(criteria, model, p, judge(0, p));
      PositionDecidesNothing(criteria, model, p, judge(0, p).value);
      DecidedAt(criteria, pairs, judge, p);
    }
    DecidedIsReady(criteria, pairs, judge);
    if NeverEven(criteria, model) {
      PositionAgreesOnNothing(criteria, model, judge, Judgeable(pairs), c);
    }
  }
}
