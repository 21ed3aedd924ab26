// The pairwise judge: both answer orders, the tally over repeats, and the win rates.
module Pairwise {
  import opened Options
  import opened Reals
  import opened Listings
  import Decimals

  // ----- Verdicts of one pair

  datatype Criterion = Criterion(name: string)

  datatype Verdict = First | Second | Even

  datatype Outcome = Baseline | Candidate | Tie

  function Mirror(o: Outcome): Outcome {
    match o
    case Baseline => Candidate
    case Candidate => Baseline
    case Tie => Tie
  }

  function Score(o: Outcome): real {
    match o
    case Candidate => 1.0
    case Tie => 0.5
    case Baseline => 0.0
  }

  /** A judge's reply: the stripped, lower-case winner it names per criterion, or no object at all. */
  datatype Reply = NoObject | Winners(winner: map<Criterion, string>)

  const VERDICTS: map<string, Verdict> := map["1" := First, "2" := Second, "tie" := Even]

  predicate WellFormed(criteria: set<Criterion>, reply: Reply) {
    reply.Winners? && forall c :: c in criteria ==> c in reply.winner && reply.winner[c] in VERDICTS
  }

  /** The verdicts of a reply; one missing or malformed winner fails them all. */
  function Verdicts(criteria: set<Criterion>, reply: Reply): Option<map<Criterion, Verdict>> {
    if WellFormed(criteria, reply) then Some(map c | c in criteria :: VERDICTS[reply.winner[c]]) else None
  }

  /** What a verdict on (baseline, candidate) says of them. */
  function Named(v: Verdict): Outcome {
    match v
    case First => Baseline
    case Second => Candidate
    case Even => Tie
  }

  /** A side wins only when both orders name it; `backward` judged (candidate, baseline). */
  predicate DecidesOne(forward: Verdict, backward: Verdict, outcome: Outcome, agreed: bool) {
    && (outcome == Candidate <==> forward == Second && backward == First)
    && (outcome == Baseline <==> forward == First && backward == Second)
    && (agreed <==> Named(forward) == Mirror(Named(backward)))
  }

  /** The outcomes and agreements the two orders' verdicts give. */
  ghost predicate Decides(criteria: set<Criterion>, forward: map<Criterion, Verdict>, backward: map<Criterion, Verdict>,
                          outcome: map<Criterion, Outcome>, agreed: map<Criterion, bool>)
    requires criteria <= forward.Keys && criteria <= backward.Keys
  {
    && outcome.Keys == criteria && agreed.Keys == criteria
    && forall c :: c in criteria ==> DecidesOne(forward[c], backward[c], outcome[c], agreed[c])
  }

  method Combine(criteria: seq<Criterion>, forward: map<Criterion, Verdict>, backward: map<Criterion, Verdict>)
      returns (outcome: map<Criterion, Outcome>, agreed: map<Criterion, bool>)
    requires forall c :: c in criteria ==> c in forward && c in backward
    ensures Decides((set c | c in criteria), forward, backward, outcome, agreed)
  {
    outcome, agreed := map[], map[];
    for i := 0 to |criteria|
      invariant outcome.Keys == set c | c in criteria[..i]
      invariant Decides(outcome.Keys, forward, backward, outcome, agreed)
    {
      var c := criteria[i];
      var one := if forward[c] == First then Baseline else if forward[c] == Second then Candidate else Tie;
      var two := if backward[c] == First then Candidate else if backward[c] == Second then Baseline else Tie;
      agreed := agreed[c := one == two];
      outcome := outcome[c := if one == two then one else Tie];
      assert DecidesOne(forward[c], backward[c], outcome[c], agreed[c]);
      assert criteria[..i + 1] == criteria[..i] + [c];
    }
    assert criteria[..|criteria|] == criteria;
  }

  /** The verdicts leave no choice. */
  lemma DecisionIsUnique(criteria: set<Criterion>, forward: map<Criterion, Verdict>, backward: map<Criterion, Verdict>,
                         o1: map<Criterion, Outcome>, a1: map<Criterion, bool>,
                         o2: map<Criterion, Outcome>, a2: map<Criterion, bool>)
    requires criteria <= forward.Keys && criteria <= backward.Keys
    requires Decides(criteria, forward, backward, o1, a1) && Decides(criteria, forward, backward, o2, a2)
    ensures o1 == o2 && a1 == a2
  {
    forall c | c in criteria
      ensures o1[c] == o2[c] && a1[c] == a2[c]
    {
      assert DecidesOne(forward[c], backward[c], o1[c], a1[c]) && DecidesOne(forward[c], backward[c], o2[c], a2[c]);
    }
  }

  function MirrorAll(outcome: map<Criterion, Outcome>): map<Criterion, Outcome> {
    map c | c in outcome :: Mirror(outcome[c])
  }

  /** Exchanging the two answers exchanges the orders, and mirrors what is decided. */
  lemma SwapMirrorsDecision(criteria: set<Criterion>, forward: map<Criterion, Verdict>,
                            backward: map<Criterion, Verdict>,
                            outcome: map<Criterion, Outcome>, agreed: map<Criterion, bool>)
    requires criteria <= forward.Keys && criteria <= backward.Keys
    requires Decides(criteria, forward, backward, outcome, agreed)
    ensures Decides(criteria, backward, forward, MirrorAll(outcome), agreed)
  {
    forall c | c in criteria
      ensures DecidesOne(backward[c], forward[c], Mirror(outcome[c]), agreed[c])
    {
      assert DecidesOne(forward[c], backward[c], outcome[c], agreed[c]);
    }
  }

  /** What the judge makes of a pair; `agreed` is None for a pair that needed no judge call. */
  datatype Judged = Judged(outcome: map<Criterion, Outcome>, agreed: Option<map<Criterion, bool>>)

  // ----- Pairs

  datatype EvaluationResult =
    EvaluationResult(queryId: string, question: string, answer: string, failed: bool, unanswerable: bool)

  /** A run's results, repeat by repeat. */
  type Repeats = seq<seq<EvaluationResult>>

  predicate Answered(r: EvaluationResult) {
    r.answer != "" && !r.failed
  }

  datatype Pair = Pair(key: string, queryId: string, base: EvaluationResult, cand: EvaluationResult)

  datatype Fate = Skipped | ToJudge | CandidateError | BaselineError | BothErrors

  function FateOf(p: Pair): Fate {
    if p.base.unanswerable || p.cand.unanswerable then Skipped
    else if Answered(p.base) then (if Answered(p.cand) then ToJudge else CandidateError)
    else if Answered(p.cand) then BaselineError
    else BothErrors
  }

  function Key(queryId: string, repeat: nat, keyed: bool): string {
    if keyed then queryId + "#" + Decimals.Decimal(repeat + 1) else queryId
  }

  /** Whatever the query ids hold, a key names one query and one repeat. */
  lemma KeyInjective(q1: string, r1: nat, q2: string, r2: nat)
    requires Key(q1, r1, true) == Key(q2, r2, true)
    ensures q1 == q2 && r1 == r2
  {
    Decimals.SuffixInjective(q1, r1 + 1, q2, r2 + 1, '#');
  }

  /** The results by id, the last one of an id kept. */
  function ById(results: seq<EvaluationResult>): map<string, EvaluationResult> {
    if results == [] then map[]
    else
      var last := results[|results| - 1];
      ById(results[..|results| - 1])[last.queryId := last]
  }

  /** The candidates the baseline also answered, in the candidates' order. */
  function RepeatPairs(byId: map<string, EvaluationResult>, candidates: seq<EvaluationResult>, repeat: nat,
                       keyed: bool): seq<Pair>
  {
    if candidates == [] then []
    else
      var r := candidates[|candidates| - 1];
      RepeatPairs(byId, candidates[..|candidates| - 1], repeat, keyed)
      + if r.queryId in byId then [Pair(Key(r.queryId, repeat, keyed), r.queryId, byId[r.queryId], r)] else []
  }

  function RepeatsOf(baselines: Repeats, candidates: Repeats): nat {
    if |baselines| <= |candidates| then |baselines| else |candidates|
  }

  function PairsUpTo(baselines: Repeats, candidates: Repeats, n: nat, keyed: bool): seq<Pair>
    requires n <= RepeatsOf(baselines, candidates)
  {
    if n == 0 then []
    else PairsUpTo(baselines, candidates, n - 1, keyed)
         + RepeatPairs(ById(baselines[n - 1]), candidates[n - 1], n - 1, keyed)
  }

  function Pairs(baselines: Repeats, candidates: Repeats): seq<Pair> {
    var n := RepeatsOf(baselines, candidates);
    PairsUpTo(baselines, candidates, n, n > 1)
  }

  method BuildPairs(baselines: Repeats, candidates: Repeats) returns (pairs: seq<Pair>)
    ensures pairs == Pairs(baselines, candidates)
  {
    var repeats := if |baselines| <= |candidates| then |baselines| else |candidates|;
    var keyed := repeats > 1;
    pairs := [];
    for index := 0 to repeats
      invariant pairs == PairsUpTo(baselines, candidates, index, keyed)
    {
      var byId: map<string, EvaluationResult> := map[];
      for j := 0 to |baselines[index]|
        invariant byId == ById(baselines[index][..j])
      {
        byId := byId[baselines[index][j].queryId := baselines[index][j]];
        assert baselines[index][..j + 1][..j] == baselines[index][..j];
      }
      assert baselines[index][..|baselines[index]|] == baselines[index];
      var found: seq<Pair> := [];
      for j := 0 to |candidates[index]|
        invariant found == RepeatPairs(byId, candidates[index][..j], index, keyed)
      {
        var r := candidates[index][j];
        if r.queryId in byId {
          found := found + [Pair(Key(r.queryId, index, keyed), r.queryId, byId[r.queryId], r)];
        }
        assert candidates[index][..j + 1][..j] == candidates[index][..j];
      }
      assert candidates[index][..|candidates[index]|] == candidates[index];
      pairs := pairs + found;
    }
  }

  // ----- What the pairs decide

  type Outcomes = map<string, map<Criterion, Outcome>>

  /** A dictionary: its entries, and its keys in the order they were first put. */
  datatype Dict = Dict(order: seq<string>, entries: Outcomes)

  const EMPTY := Dict([], map[])

  function Put(d: Dict, k: string, v: map<Criterion, Outcome>): Dict {
    Dict(if k in d.entries then d.order else d.order + [k], d.entries[k := v])
  }

  function Uniform(criteria: set<Criterion>, o: Outcome): map<Criterion, Outcome> {
    map c | c in criteria :: o
  }

  function Count(pairs: seq<Pair>, fate: Fate): nat {
    if pairs == [] then 0
    else Count(pairs[..|pairs| - 1], fate) + if FateOf(pairs[|pairs| - 1]) == fate then 1 else 0
  }

  function Judgeable(pairs: seq<Pair>): seq<Pair> {
    if pairs == [] then []
    else Judgeable(pairs[..|pairs| - 1])
         + if FateOf(pairs[|pairs| - 1]) == ToJudge then [pairs[|pairs| - 1]] else []
  }

  /** The pairs a failed answer decides: the side that answered wins every criterion. */
  function Settled(criteria: set<Criterion>, pairs: seq<Pair>): Dict {
    if pairs == [] then EMPTY
    else
      var before, p := Settled(criteria, pairs[..|pairs| - 1]), pairs[|pairs| - 1];
      match FateOf(p)
      case CandidateError => Put(before, p.key, Uniform(criteria, Baseline))
      case BaselineError => Put(before, p.key, Uniform(criteria, Candidate))
      case _ => before
  }

  /** A judge's answer for the i-th pair it is asked about; None when its calls failed. */
  type Judge = (nat, Pair) -> Option<Judged>

  ghost predicate Complete(criteria: set<Criterion>, judge: Judge) {
    forall i, p :: judge(i, p).Some? ==>
      && judge(i, p).value.outcome.Keys == criteria
      && (judge(i, p).value.agreed.Some? ==> judge(i, p).value.agreed.value.Keys == criteria)
  }

  function WithJudged(settled: Dict, toJudge: seq<Pair>, judge: Judge): Dict {
    if toJudge == [] then settled
    else
      var n := |toJudge| - 1;
      var before := WithJudged(settled, toJudge[..n], judge);
      match judge(n, toJudge[n])
      case Some(j) => Put(before, toJudge[n].key, j.outcome)
      case None => before
  }

  function JudgedKeys(toJudge: seq<Pair>, judge: Judge): seq<string> {
    if toJudge == [] then []
    else
      var n := |toJudge| - 1;
      JudgedKeys(toJudge[..n], judge) + if judge(n, toJudge[n]).Some? then [toJudge[n].key] else []
  }

  function Agreements(toJudge: seq<Pair>, judge: Judge): seq<map<Criterion, bool>> {
    if toJudge == [] then []
    else
      var n := |toJudge| - 1;
      Agreements(toJudge[..n], judge)
      + match judge(n, toJudge[n]) case Some(Judged(_, Some(agreed))) => [agreed] case _ => []
  }

  function Decided(criteria: set<Criterion>, pairs: seq<Pair>, judge: Judge): Dict {
    WithJudged(Settled(criteria, pairs), Judgeable(pairs), judge)
  }

  function QueryOf(pairs: seq<Pair>): map<string, string> {
    if pairs == [] then map[]
    else QueryOf(pairs[..|pairs| - 1])[pairs[|pairs| - 1].key := pairs[|pairs| - 1].queryId]
  }

  // ----- The tally of one criterion

  /** The total of `f` over `s`, in any order. */
  ghost function SetSum(s: set<string>, f: map<string, real>): real
    requires s <= f.Keys
  {
    if s == {} then 0.0 else var x :| x in s; f[x] + SetSum(s - {x}, f)
  }

  lemma {:induction false} SetSumPick(s: set<string>, f: map<string, real>, x: string)
    requires s <= f.Keys && x in s
    ensures SetSum(s, f) == f[x] + SetSum(s - {x}, f)
    decreases s
  {
    var y :| y in s && SetSum(s, f) == f[y] + SetSum(s - {y}, f);
    if y != x {
      SetSumPick(s - {y}, f, x);
      SetSumPick(s - {x}, f, y);
      assert s - {x} - {y} == s - {y} - {x};
    }
  }

  lemma SetSumAdd(s: set<string>, f: map<string, real>, x: string)
    requires s <= f.Keys && x in f.Keys && x !in s
    ensures SetSum(s + {x}, f) == f[x] + SetSum(s, f)
  {
    SetSumPick(s + {x}, f, x);
    assert s + {x} - {x} == s;
  }

  lemma {:induction false} SetSumSame(s: set<string>, f: map<string, real>, g: map<string, real>)
    requires s <= f.Keys && s <= g.Keys && forall x :: x in s ==> f[x] == g[x]
    ensures SetSum(s, f) == SetSum(s, g)
    decreases s
  {
    if s != {} {
      var x :| x in s && SetSum(s, f) == f[x] + SetSum(s - {x}, f);
      SetSumPick(s, g, x);
      SetSumSame(s - {x}, f, g);
    }
  }

  ghost predicate HasCriterion(outcomes: Outcomes, c: Criterion) {
    forall k :: k in outcomes ==> c in outcomes[k]
  }

  ghost function KeysWith(keys: set<string>, outcomes: Outcomes, c: Criterion, o: Outcome): set<string>
    requires keys <= outcomes.Keys && HasCriterion(outcomes, c)
  {
    set k | k in keys && outcomes[k][c] == o
  }

  /** How many of the listed outcomes are `o`. */
  function Won(order: seq<string>, outcomes: Outcomes, c: Criterion, o: Outcome): nat
    requires forall k :: k in order ==> k in outcomes && c in outcomes[k]
  {
    if order == [] then 0
    else
      var last := order[|order| - 1];
      Won(order[..|order| - 1], outcomes, c, o) + if outcomes[last][c] == o then 1 else 0
  }

  /** A count over the listing is the number of keys, whatever the order. */
  lemma {:induction false} WonIsNumberOfKeys(order: seq<string>, keys: set<string>, outcomes: Outcomes, c: Criterion,
                                             o: Outcome)
    requires Lists(order, keys) && keys <= outcomes.Keys && HasCriterion(outcomes, c)
    ensures Won(order, outcomes, c, o) == |KeysWith(keys, outcomes, c, o)|
  {
    if order == [] {
      assert KeysWith(keys, outcomes, c, o) == {};
    } else {
      var last := order[|order| - 1];
      assert order == order[..|order| - 1] + [last];
      WonIsNumberOfKeys(order[..|order| - 1], keys - {last}, outcomes, c, o);
      CountOneKey(keys - {last}, outcomes, c, last, o);
      assert keys - {last} + {last} == keys;
    }
  }

  ghost function KeysOf(keys: set<string>, queryOf: map<string, string>, q: string): set<string>
    requires keys <= queryOf.Keys
  {
    set k | k in keys && queryOf[k] == q
  }

  ghost function QueriesOf(keys: set<string>, queryOf: map<string, string>): set<string>
    requires keys <= queryOf.Keys
  {
    set k | k in keys :: queryOf[k]
  }

  ghost function Scores(outcomes: Outcomes, c: Criterion): (scores: map<string, real>)
    requires HasCriterion(outcomes, c)
    ensures scores.Keys == outcomes.Keys
  {
    map k | k in outcomes :: Score(outcomes[k][c])
  }

  /** A query's score: the mean over its decided repeats. */
  ghost function QueryMean(scores: map<string, real>, queryOf: map<string, string>, q: string): real
    requires scores.Keys <= queryOf.Keys && q in QueriesOf(scores.Keys, queryOf)
  {
    var mine := KeysOf(scores.Keys, queryOf, q);
    var k :| k in scores.Keys && queryOf[k] == q;
    assert k in mine;
    SetSum(mine, scores) / |mine| as real
  }

  ghost function QueryMeans(scores: map<string, real>, queryOf: map<string, string>): map<string, real>
    requires scores.Keys <= queryOf.Keys
  {
    map q | q in QueriesOf(scores.Keys, queryOf) :: QueryMean(scores, queryOf, q)
  }

  /** The clustered win rate: the mean over the queries of each query's mean. */
  ghost function WinRate(scores: map<string, real>, queryOf: map<string, string>): real
    requires scores.Keys <= queryOf.Keys && scores.Keys != {}
  {
    var queries := QueriesOf(scores.Keys, queryOf);
    var k :| k in scores.Keys;
    assert queryOf[k] in queries;
    SetSum(queries, QueryMeans(scores, queryOf)) / |queries| as real
  }

  /** `position_consistency` is a share of the judged pairs; it is None without any. */
  datatype Tally = Tally(wins: nat, losses: nat, ties: nat, rate: Option<real>, agreeing: nat, judgedPairs: nat)

  function Agreeing(agreements: seq<map<Criterion, bool>>, c: Criterion): nat
    requires forall a :: a in agreements ==> c in a
  {
    if agreements == [] then 0
    else Agreeing(agreements[..|agreements| - 1], c) + if agreements[|agreements| - 1][c] then 1 else 0
  }

  ghost predicate OutcomesComplete(criteria: set<Criterion>, outcomes: Outcomes) {
    forall k :: k in outcomes ==> outcomes[k].Keys == criteria
  }

  ghost predicate Valid(criteria: set<Criterion>, d: Dict) {
    Lists(d.order, d.entries.Keys) && OutcomesComplete(criteria, d.entries)
  }

  /** The tally's inputs fit together. */
  ghost predicate Ready(criteria: set<Criterion>, d: Dict, queryOf: map<string, string>, anyJudged: bool,
                        agreements: seq<map<Criterion, bool>>)
  {
    && Valid(criteria, d) && d.entries.Keys <= queryOf.Keys
    && (anyJudged ==> d.entries.Keys != {})
    && forall a :: a in agreements ==> a.Keys == criteria
  }

  ghost function TallyOf(criteria: set<Criterion>, d: Dict, queryOf: map<string, string>, anyJudged: bool,
                         agreements: seq<map<Criterion, bool>>, c: Criterion): Tally
    requires Ready(criteria, d, queryOf, anyJudged, agreements) && c in criteria
  {
    Tally(Won(d.order, d.entries, c, Candidate), Won(d.order, d.entries, c, Baseline), Won(d.order, d.entries, c, Tie),
          if anyJudged then Some(WinRate(Scores(d.entries, c), queryOf)) else None,
          Agreeing(agreements, c), |agreements|)
  }

  /** `listed` holds the scores of query `q`, over the pairs with these keys. */
  ghost predicate ListsScores(keys: set<string>, scores: map<string, real>, queryOf: map<string, string>,
                              q: string, listed: seq<real>)
    requires keys <= scores.Keys <= queryOf.Keys
  {
    && |listed| == |KeysOf(keys, queryOf, q)|
    && Sum(listed) == SetSum(KeysOf(keys, queryOf, q), scores)
  }

  lemma ListOwnScore(keys: set<string>, scores: map<string, real>, queryOf: map<string, string>,
                     k: string, listed: seq<real>)
    requires keys <= scores.Keys <= queryOf.Keys && k in scores && k !in keys
    requires ListsScores(keys, scores, queryOf, queryOf[k], listed)
    ensures ListsScores(keys + {k}, scores, queryOf, queryOf[k], listed + [scores[k]])
  {
    var mine := KeysOf(keys, queryOf, queryOf[k]);
    assert KeysOf(keys + {k}, queryOf, queryOf[k]) == mine + {k};
    SetSumAdd(mine, scores, k);
    SumConcat(listed, [scores[k]]);
    assert Sum([scores[k]]) == scores[k];
  }

  lemma SkipOtherScore(keys: set<string>, scores: map<string, real>, queryOf: map<string, string>,
                       k: string, q: string, listed: seq<real>)
    requires keys <= scores.Keys <= queryOf.Keys && k in scores && queryOf[k] != q
    requires ListsScores(keys, scores, queryOf, q, listed)
    ensures ListsScores(keys + {k}, scores, queryOf, q, listed)
  {
    assert KeysOf(keys + {k}, queryOf, q) == KeysOf(keys, queryOf, q);
  }

  /** `byQuery` lists the scores of every query among the pairs with these keys. */
  ghost predicate ScoresListed(keys: set<string>, scores: map<string, real>, queryOf: map<string, string>,
                               byQuery: map<string, seq<real>>)
    requires keys <= scores.Keys <= queryOf.Keys
  {
    && byQuery.Keys == QueriesOf(keys, queryOf)
    && forall q :: q in byQuery ==> ListsScores(keys, scores, queryOf, q, byQuery[q])
  }

  lemma ListOneScore(keys: set<string>, scores: map<string, real>, queryOf: map<string, string>,
                     byQuery: map<string, seq<real>>, k: string, so: seq<real>)
    requires keys <= scores.Keys <= queryOf.Keys && k in scores && k !in keys
    requires ScoresListed(keys, scores, queryOf, byQuery)
    requires so == if queryOf[k] in byQuery then byQuery[queryOf[k]] else []
    ensures ScoresListed(keys + {k}, scores, queryOf, byQuery[queryOf[k] := so + [scores[k]]])
  {
    var now := byQuery[queryOf[k] := so + [scores[k]]];
    if queryOf[k] !in byQuery {
      assert forall x :: x in keys ==> queryOf[x] in QueriesOf(keys, queryOf);
      assert KeysOf(keys, queryOf, queryOf[k]) == {};
    }
    assert ListsScores(keys, scores, queryOf, queryOf[k], so);
    ListOwnScore(keys, scores, queryOf, k, so);
    forall q | q in now && q != queryOf[k]
      ensures ListsScores(keys + {k}, scores, queryOf, q, now[q])
    {
      SkipOtherScore(keys, scores, queryOf, k, q, now[q]);
    }
    assert QueriesOf(keys + {k}, queryOf) == QueriesOf(keys, queryOf) + {queryOf[k]};
  }

  lemma CountOneKey(keys: set<string>, outcomes: Outcomes, c: Criterion, k: string, o: Outcome)
    requires keys <= outcomes.Keys && HasCriterion(outcomes, c) && k in outcomes && k !in keys
    ensures |KeysWith(keys + {k}, outcomes, c, o)|
            == |KeysWith(keys, outcomes, c, o)| + if outcomes[k][c] == o then 1 else 0
  {
    if outcomes[k][c] == o {
      assert KeysWith(keys + {k}, outcomes, c, o) == KeysWith(keys, outcomes, c, o) + {k};
    } else {
      assert KeysWith(keys + {k}, outcomes, c, o) == KeysWith(keys, outcomes, c, o);
    }
  }

  method Mean(ghost keys: set<string>, ghost scores: map<string, real>, ghost queryOf: map<string, string>,
              ghost q: string, listed: seq<real>) returns (mean: real)
    requires scores.Keys <= queryOf.Keys && q in QueriesOf(scores.Keys, queryOf)
    requires ListsScores(scores.Keys, scores, queryOf, q, listed)
    ensures mean == QueryMean(scores, queryOf, q)
  {
    ghost var k :| k in scores.Keys && queryOf[k] == q;
    assert k in KeysOf(scores.Keys, queryOf, q);
    mean := Sum(listed) / |listed| as real;
  }

  /** The query means added up. */
  method TotalOfMeans(ghost scores: map<string, real>, ghost queryOf: map<string, string>,
                      byQuery: map<string, seq<real>>, order: seq<string>) returns (total: real)
    requires scores.Keys <= queryOf.Keys && ScoresListed(scores.Keys, scores, queryOf, byQuery)
    requires Lists(order, byQuery.Keys)
    ensures total == SetSum(byQuery.Keys, QueryMeans(scores, queryOf))
  {
    ghost var means, done: set<string> := QueryMeans(scores, queryOf), {};
    total := 0.0;
    for i := 0 to |order|
      invariant Lists(order[..i], done) && done <= means.Keys
      invariant total == SetSum(done, means)
    {
      var q := order[i];
      ListsNext(order, byQuery.Keys, i, done);
      var mean := Mean(scores.Keys, scores, queryOf, q, byQuery[q]);
      SetSumAdd(done, means, q);
      total := total + mean;
      done := done + {q};
    }
    ListsAll(order, byQuery.Keys, done);
  }

  /** The scores of each query, and the queries in the order of their first outcome. */
  method ListScores(outcomes: Outcomes, order: seq<string>, queryOf: map<string, string>, c: Criterion)
      returns (byQuery: map<string, seq<real>>, queries: seq<string>)
    requires HasCriterion(outcomes, c) && outcomes.Keys <= queryOf.Keys && Lists(order, outcomes.Keys)
    ensures ScoresListed(outcomes.Keys, Scores(outcomes, c), queryOf, byQuery)
    ensures Lists(queries, byQuery.Keys)
  {
    ghost var scores, done: set<string> := Scores(outcomes, c), {};
    byQuery, queries := map[], [];
    for i := 0 to |order|
      invariant Lists(order[..i], done) && done <= outcomes.Keys
      invariant ScoresListed(done, scores, queryOf, byQuery)
      invariant Lists(queries, byQuery.Keys)
    {
      var k := order[i];
      ListsNext(order, outcomes.Keys, i, done);
      var so := if queryOf[k] in byQuery then byQuery[queryOf[k]] else [];
      ListOneScore(done, scores, queryOf, byQuery, k, so);
      ListsAppend(queries, byQuery.Keys, queryOf[k]);
      queries := if queryOf[k] in byQuery then queries else queries + [queryOf[k]];
      byQuery := byQuery[queryOf[k] := so + [Score(outcomes[k][c])]];
      done := done + {k};
    }
    ListsAll(order, outcomes.Keys, done);
  }

  method MeanOfMeans(ghost scores: map<string, real>, ghost queryOf: map<string, string>,
                     byQuery: map<string, seq<real>>, queries: seq<string>) returns (rate: real)
    requires scores.Keys <= queryOf.Keys && scores.Keys != {}
    requires ScoresListed(scores.Keys, scores, queryOf, byQuery) && Lists(queries, byQuery.Keys)
    ensures rate == WinRate(scores, queryOf)
  {
    var total := TotalOfMeans(scores, queryOf, byQuery, queries);
    ghost var k :| k in scores.Keys;
    assert queryOf[k] in QueriesOf(scores.Keys, queryOf);
    ListedSize(queries, byQuery.Keys);
    rate := total / |queries| as real;
  }

  method RateOf(outcomes: Outcomes, order: seq<string>, queryOf: map<string, string>, c: Criterion)
      returns (rate: real)
    requires HasCriterion(outcomes, c) && outcomes.Keys <= queryOf.Keys && Lists(order, outcomes.Keys)
    requires outcomes.Keys != {}
    ensures rate == WinRate(Scores(outcomes, c), queryOf)
  {
    var byQuery, queries := ListScores(outcomes, order, queryOf, c);
    rate := MeanOfMeans(Scores(outcomes, c), queryOf, byQuery, queries);
  }

  method CountOutcomes(d: Dict, c: Criterion) returns (wins: nat, losses: nat, ties: nat)
    requires HasCriterion(d.entries, c) && Lists(d.order, d.entries.Keys)
    ensures wins == Won(d.order, d.entries, c, Candidate) && losses == Won(d.order, d.entries, c, Baseline)
    ensures ties == Won(d.order, d.entries, c, Tie)
    ensures wins + losses + ties == |d.order|
  {
    wins, losses, ties := 0, 0, 0;
    for i := 0 to |d.order|
      invariant wins == Won(d.order[..i], d.entries, c, Candidate)
      invariant losses == Won(d.order[..i], d.entries, c, Baseline)
      invariant ties == Won(d.order[..i], d.entries, c, Tie)
      invariant wins + losses + ties == i
    {
      assert d.order[..i + 1][..i] == d.order[..i];
      match d.entries[d.order[i]][c] {
        case Candidate => wins := wins + 1;
        case Baseline => losses := losses + 1;
        case Tie => ties := ties + 1;
      }
    }
    assert d.order[..|d.order|] == d.order;
  }

  method CountAgreeing(agreements: seq<map<Criterion, bool>>, c: Criterion) returns (agreeing: nat)
    requires forall a :: a in agreements ==> c in a
    ensures agreeing == Agreeing(agreements, c)
  {
    agreeing := 0;
    for i := 0 to |agreements|
      invariant agreeing == Agreeing(agreements[..i], c)
    {
      agreeing := agreeing + if agreements[i][c] then 1 else 0;
      assert agreements[..i + 1][..i] == agreements[..i];
    }
    assert agreements[..|agreements|] == agreements;
  }

  method TallyCriterion(ghost criteria: set<Criterion>, d: Dict, queryOf: map<string, string>, anyJudged: bool,
                        agreements: seq<map<Criterion, bool>>, c: Criterion) returns (t: Tally)
    requires Ready(criteria, d, queryOf, anyJudged, agreements) && c in criteria
    ensures t == TallyOf(criteria, d, queryOf, anyJudged, agreements, c)
    ensures t.wins + t.losses + t.ties == |d.order|
  {
    var wins, losses, ties := CountOutcomes(d, c);
    var rate := None;
    if anyJudged {
      var r := RateOf(d.entries, d.order, queryOf, c);
      rate := Some(r);
    }
    var agreeing := CountAgreeing(agreements, c);
    t := Tally(wins, losses, ties, rate, agreeing, |agreements|);
  }

  // ----- Length buckets

  /** LENGTH_BUCKETS, shortest candidate first. */
  datatype Bucket = MuchShorter | Shorter | Near | Longer | MuchLonger

  function MirrorBucket(b: Bucket): Bucket {
    match b
    case MuchShorter => MuchLonger
    case Shorter => Longer
    case Near => Near
    case Longer => Shorter
    case MuchLonger => MuchShorter
  }

  /** The bucket of the ratio of two token counts; `near` and `far` are its bounds, tolerance included. */
  function LengthBucket(base: nat, cand: nat, near: real, far: real): Bucket {
    if base == 0 then MuchLonger
    else if cand == 0 then MuchShorter
    else if cand as real <= near * base as real && base as real <= near * cand as real then Near
    else if cand as real < far * base as real && base as real < far * cand as real then
      (if cand < base then Shorter else Longer)
    else if cand < base then MuchShorter else MuchLonger
  }

  /** A ratio and its reciprocal land in mirror buckets, except that two empty answers do not. */
  lemma MirrorBuckets(base: nat, cand: nat, near: real, far: real)
    requires 1.0 <= near < far
    ensures LengthBucket(cand, base, near, far) == MirrorBucket(LengthBucket(base, cand, near, far))
            <==> !(base == 0 && cand == 0)
  {
    if base == cand && base > 0 {
      assert 1.0 * base as real <= near * base as real;
    }
  }

  function BucketsOf(toJudge: seq<Pair>, judge: Judge, bucket: Pair -> Bucket): map<string, Bucket> {
    if toJudge == [] then map[]
    else
      var n := |toJudge| - 1;
      var before := BucketsOf(toJudge[..n], judge, bucket);
      if judge(n, toJudge[n]).Some? then before[toJudge[n].key := bucket(toJudge[n])] else before
  }

  /** The listed pairs that were measured, and how many of them fall in a bucket. */
  function Measured(order: seq<string>, buckets: map<string, Bucket>): seq<string> {
    if order == [] then []
    else
      var last := order[|order| - 1];
      Measured(order[..|order| - 1], buckets) + if last in buckets then [last] else []
  }

  function InBucket(order: seq<string>, buckets: map<string, Bucket>, b: Bucket): nat {
    if order == [] then 0
    else
      var last := order[|order| - 1];
      InBucket(order[..|order| - 1], buckets, b) + if last in buckets && buckets[last] == b then 1 else 0
  }

  datatype LengthSummary = LengthSummary(pairs: nat, counts: map<Bucket, nat>)

  /** Every measured pair is counted in exactly one bucket. */
  ghost predicate Partitions(s: LengthSummary, order: seq<string>, buckets: map<string, Bucket>) {
    && s.counts.Keys == {MuchShorter, Shorter, Near, Longer, MuchLonger}
    && (forall b :: b in s.counts ==> s.counts[b] == InBucket(order, buckets, b))
    && s.pairs == |Measured(order, buckets)|
    && s.counts[MuchShorter] + s.counts[Shorter] + s.counts[Near] + s.counts[Longer] + s.counts[MuchLonger] == s.pairs
  }

  lemma {:induction false} BucketsPartition(order: seq<string>, buckets: map<string, Bucket>)
    ensures InBucket(order, buckets, MuchShorter) + InBucket(order, buckets, Shorter) + InBucket(order, buckets, Near)
            + InBucket(order, buckets, Longer) + InBucket(order, buckets, MuchLonger) == |Measured(order, buckets)|
  {
    if order != [] {
      BucketsPartition(order[..|order| - 1], buckets);
    }
  }

  method CountBucket(order: seq<string>, buckets: map<string, Bucket>, b: Bucket) returns (count: nat)
    ensures count == InBucket(order, buckets, b)
  {
    count := 0;
    for i := 0 to |order|
      invariant count == InBucket(order[..i], buckets, b)
    {
      if order[i] in buckets && buckets[order[i]] == b {
        count := count + 1;
      }
      assert order[..i + 1][..i] == order[..i];
    }
    assert order[..|order|] == order;
  }

  method SummariseLengths(order: seq<string>, buckets: map<string, Bucket>) returns (s: LengthSummary)
    ensures Partitions(s, order, buckets)
  {
    var pairs: nat := 0;
    for i := 0 to |order|
      invariant pairs == |Measured(order[..i], buckets)|
    {
      pairs := pairs + if order[i] in buckets then 1 else 0;
      assert order[..i + 1][..i] == order[..i];
    }
    assert order[..|order|] == order;
    var much := CountBucket(order, buckets, MuchShorter);
    var shorter := CountBucket(order, buckets, Shorter);
    var near := CountBucket(order, buckets, Near);
    var longer := CountBucket(order, buckets, Longer);
    var muchLonger := CountBucket(order, buckets, MuchLonger);
    BucketsPartition(order, buckets);
    s := LengthSummary(pairs, map[MuchShorter := much, Shorter := shorter, Near := near,
                                  Longer := longer, MuchLonger := muchLonger]);
  }

  // ----- The comparison

  lemma PutKeepsValid(criteria: set<Criterion>, d: Dict, k: string, v: map<Criterion, Outcome>)
    requires Valid(criteria, d) && v.Keys == criteria
    ensures Valid(criteria, Put(d, k, v)) && Put(d, k, v).entries.Keys == d.entries.Keys + {k}
  {
    ListsAppend(d.order, d.entries.Keys, k);
  }

  lemma {:induction false} SettledIsValid(criteria: set<Criterion>, pairs: seq<Pair>)
    ensures Valid(criteria, Settled(criteria, pairs))
  {
    if pairs != [] {
      var before, p := pairs[..|pairs| - 1], pairs[|pairs| - 1];
      SettledIsValid(criteria, before);
      PutKeepsValid(criteria, Settled(criteria, before), p.key, Uniform(criteria, Baseline));
      PutKeepsValid(criteria, Settled(criteria, before), p.key, Uniform(criteria, Candidate));
    }
  }

  lemma {:induction false} SettledKeysKnown(criteria: set<Criterion>, pairs: seq<Pair>)
    ensures forall k :: k in Settled(criteria, pairs).entries ==> k in QueryOf(pairs)
  {
    if pairs != [] {
      SettledKeysKnown(criteria, pairs[..|pairs| - 1]);
    }
  }

  lemma {:induction false} JudgeableIsPart(pairs: seq<Pair>)
    ensures forall p :: p in Judgeable(pairs) ==> p.key in QueryOf(pairs)
    ensures forall p :: p in Judgeable(pairs) <==> p in pairs && FateOf(p) == ToJudge
  {
    if pairs != [] {
      JudgeableIsPart(pairs[..|pairs| - 1]);
      assert pairs == pairs[..|pairs| - 1] + [pairs[|pairs| - 1]];
    }
  }

  lemma {:induction false} JudgedIsValid(criteria: set<Criterion>, settled: Dict, toJudge: seq<Pair>,
                                         judge: Judge, known: set<string>)
    requires Complete(criteria, judge) && Valid(criteria, settled) && settled.entries.Keys <= known
    requires forall p :: p in toJudge ==> p.key in known
    ensures Valid(criteria, WithJudged(settled, toJudge, judge))
    ensures WithJudged(settled, toJudge, judge).entries.Keys <= known
    ensures JudgedKeys(toJudge, judge) != [] ==> WithJudged(settled, toJudge, judge).entries.Keys != {}
    ensures forall a :: a in Agreements(toJudge, judge) ==> a.Keys == criteria
  {
    if toJudge != [] {
      var n := |toJudge| - 1;
      JudgedIsValid(criteria, settled, toJudge[..n], judge, known);
      assert toJudge[n] in toJudge;
      if judge(n, toJudge[n]).Some? {
        var before := WithJudged(settled, toJudge[..n], judge);
        PutKeepsValid(criteria, before, toJudge[n].key, judge(n, toJudge[n]).value.outcome);
        assert toJudge[n].key in WithJudged(settled, toJudge, judge).entries.Keys;
      }
    }
  }

  /** What the pairs decide is ready to be tallied. */
  lemma DecidedIsReady(criteria: set<Criterion>, pairs: seq<Pair>, judge: Judge)
    requires Complete(criteria, judge)
    ensures Ready(criteria, Decided(criteria, pairs, judge), QueryOf(pairs), JudgedKeys(Judgeable(pairs), judge) != [],
                  Agreements(Judgeable(pairs), judge))
  {
    SettledIsValid(criteria, pairs);
    SettledKeysKnown(criteria, pairs);
    JudgeableIsPart(pairs);
    JudgedIsValid(criteria, Settled(criteria, pairs), Judgeable(pairs), judge, QueryOf(pairs).Keys);
  }

  datatype Counters = Counters(unanswerable: nat, candidateErrors: nat, baselineErrors: nat, bothErrors: nat)

  ghost predicate Counts(n: Counters, pairs: seq<Pair>) {
    && n.unanswerable == Count(pairs, Skipped)
    && n.candidateErrors == Count(pairs, CandidateError)
    && n.baselineErrors == Count(pairs, BaselineError)
    && n.bothErrors == Count(pairs, BothErrors)
  }

  /** Every pair is judged or counted under one error. */
  lemma {:induction false} EveryPairCounted(pairs: seq<Pair>)
    ensures Count(pairs, Skipped) + Count(pairs, CandidateError) + Count(pairs, BaselineError)
            + Count(pairs, BothErrors) + |Judgeable(pairs)| == |pairs|
  {
    if pairs != [] {
      EveryPairCounted(pairs[..|pairs| - 1]);
    }
  }

  /** Sorts the pairs: what a failed answer decides, what is left to judge, and the counters. */
  method SettlePairs(criteria: set<Criterion>, pairs: seq<Pair>)
      returns (outcomes: Dict, toJudge: seq<Pair>, n: Counters)
    ensures outcomes == Settled(criteria, pairs) && toJudge == Judgeable(pairs) && Counts(n, pairs)
  {
    outcomes, toJudge, n := EMPTY, [], Counters(0, 0, 0, 0);
    for i := 0 to |pairs|
      invariant outcomes == Settled(criteria, pairs[..i])
      invariant toJudge == Judgeable(pairs[..i])
      invariant Counts(n, pairs[..i])
    {
      var p := pairs[i];
      assert pairs[..i + 1][..i] == pairs[..i];
      match FateOf(p) {
        case Skipped => n := n.(unanswerable := n.unanswerable + 1);
        case ToJudge => toJudge := toJudge + [p];
        case CandidateError =>
          n := n.(candidateErrors := n.candidateErrors + 1);
          outcomes := Put(outcomes, p.key, Uniform(criteria, Baseline));
        case BaselineError =>
          n := n.(baselineErrors := n.baselineErrors + 1);
          outcomes := Put(outcomes, p.key, Uniform(criteria, Candidate));
        case BothErrors => n := n.(bothErrors := n.bothErrors + 1);
      }
    }
    assert pairs[..|pairs|] == pairs;
  }

  method RecordJudged(settled: Dict, toJudge: seq<Pair>, judge: Judge, bucket: Pair -> Bucket)
      returns (outcomes: Dict, judgedKeys: seq<string>, agreements: seq<map<Criterion, bool>>,
               buckets: map<string, Bucket>, failed: nat)
    ensures outcomes == WithJudged(settled, toJudge, judge)
    ensures judgedKeys == JudgedKeys(toJudge, judge) && agreements == Agreements(toJudge, judge)
    ensures buckets == BucketsOf(toJudge, judge, bucket)
    ensures |judgedKeys| + failed == |toJudge|
  {
    outcomes, judgedKeys, agreements, buckets, failed := settled, [], [], map[], 0;
    for i := 0 to |toJudge|
      invariant outcomes == WithJudged(settled, toJudge[..i], judge)
      invariant judgedKeys == JudgedKeys(toJudge[..i], judge) && agreements == Agreements(toJudge[..i], judge)
      invariant buckets == BucketsOf(toJudge[..i], judge, bucket)
      invariant |judgedKeys| + failed == i
    {
      var p := toJudge[i];
      assert toJudge[..i + 1][..i] == toJudge[..i];
      match judge(i, p) {
        case None => failed := failed + 1;
        case Some(verdict) =>
          outcomes := Put(outcomes, p.key, verdict.outcome);
          judgedKeys := judgedKeys + [p.key];
          buckets := buckets[p.key := bucket(p)];
          if verdict.agreed.Some? {
            agreements := agreements + [verdict.agreed.value];
          }
      }
    }
    assert toJudge[..|toJudge|] == toJudge;
  }

  datatype Report = Report(pairs: nat, judged: nat, failed: nat, errors: Counters, identical: nat,
                           outcomes: Outcomes, tallies: map<Criterion, Tally>, length: LengthSummary)

  /** The tallies of every criterion, over what these pairs decide. */
  ghost predicate TalliesDecided(criteria: set<Criterion>, pairs: seq<Pair>, judge: Judge,
                                 tallies: map<Criterion, Tally>)
    requires Complete(criteria, judge)
  {
    && tallies.Keys == criteria
    && forall c :: c in criteria ==> tallies[c] == TallyDecided(criteria, pairs, judge, c)
  }

  /** The tally of a criterion over what these pairs decide. */
  ghost function TallyDecided(criteria: set<Criterion>, pairs: seq<Pair>, judge: Judge, c: Criterion): Tally
    requires Complete(criteria, judge) && c in criteria
  {
    DecidedIsReady(criteria, pairs, judge);
    TallyOf(criteria, Decided(criteria, pairs, judge), QueryOf(pairs), JudgedKeys(Judgeable(pairs), judge) != [],
            Agreements(Judgeable(pairs), judge), c)
  }

  method BuildQueryOf(pairs: seq<Pair>) returns (queryOf: map<string, string>)
    ensures queryOf == QueryOf(pairs)
  {
    queryOf := map[];
    for i := 0 to |pairs|
      invariant queryOf == QueryOf(pairs[..i])
    {
      queryOf := queryOf[pairs[i].key := pairs[i].queryId];
      assert pairs[..i + 1][..i] == pairs[..i];
    }
    assert pairs[..|pairs|] == pairs;
  }

  method TallyAll(criteria: seq<Criterion>, ghost all: set<Criterion>, d: Dict, queryOf: map<string, string>,
                  anyJudged: bool, agreements: seq<map<Criterion, bool>>) returns (tallies: map<Criterion, Tally>)
    requires forall c :: c in all <==> c in criteria
    requires Ready(all, d, queryOf, anyJudged, agreements)
    ensures forall c :: c in tallies <==> c in all
    ensures forall c :: c in tallies ==> tallies[c] == TallyOf(all, d, queryOf, anyJudged, agreements, c)
    ensures forall c :: c in tallies ==> tallies[c].wins + tallies[c].losses + tallies[c].ties == |d.order|
  {
    tallies := map[];
    for i := 0 to |criteria|
      invariant forall c :: c in tallies <==> c in criteria[..i]
      invariant forall c :: c in tallies ==> c in all && tallies[c] == TallyOf(all, d, queryOf, anyJudged, agreements, c)
      invariant forall c :: c in tallies ==> tallies[c].wins + tallies[c].losses + tallies[c].ties == |d.order|
    {
      var t := TallyCriterion(all, d, queryOf, anyJudged, agreements, criteria[i]);
      tallies := tallies[criteria[i] := t];
      assert criteria[..i + 1] == criteria[..i] + [criteria[i]];
    }
    assert criteria[..|criteria|] == criteria;
  }

  /** The whole comparison of a candidate's repeats with the baseline's. */
  method CompareRepeats(criteria: seq<Criterion>, baselines: Repeats, candidates: Repeats,
                        judge: Judge, bucket: Pair -> Bucket) returns (report: Report)
    requires Complete(Elements(criteria), judge)
    ensures report.pairs == report.judged + report.failed + report.errors.candidateErrors
                            + report.errors.baselineErrors + report.errors.bothErrors + report.errors.unanswerable
    ensures Counts(report.errors, Pairs(baselines, candidates))
    ensures report.judged == |JudgedKeys(Judgeable(Pairs(baselines, candidates)), judge)|
    ensures report.outcomes == Decided(Elements(criteria), Pairs(baselines, candidates), judge).entries
    ensures TalliesDecided(Elements(criteria), Pairs(baselines, candidates), judge, report.tallies)
    ensures forall c :: c in report.tallies ==>
              report.tallies[c].wins + report.tallies[c].losses + report.tallies[c].ties == |report.outcomes.Keys|
    ensures Partitions(report.length, Decided(Elements(criteria), Pairs(baselines, candidates), judge).order,
                       BucketsOf(Judgeable(Pairs(baselines, candidates)), judge, bucket))
  {
    var all := Elements(criteria);
    var pairs := BuildPairs(baselines, candidates);
    var queryOf := BuildQueryOf(pairs);
    var settled, toJudge, errors := SettlePairs(all, pairs);
    EveryPairCounted(pairs);
    var outcomes, judgedKeys, agreements, buckets, failed := RecordJudged(settled, toJudge, judge, bucket);
    DecidedIsReady(all, pairs, judge);
    var tallies := TallyAll(criteria, all, outcomes, queryOf, judgedKeys != [], agreements);
    ListedSize(outcomes.order, outcomes.entries.Keys);
    var length := SummariseLengths(outcomes.order, buckets);
    AgreementsFit(toJudge, judge);
    report := Report(|pairs|, |judgedKeys|, failed, errors, |judgedKeys| - |agreements|, outcomes.entries, tallies, length);
  }

  lemma {:induction false} AgreementsFit(toJudge: seq<Pair>, judge: Judge)
    ensures |Agreements(toJudge, judge)| <= |JudgedKeys(toJudge, judge)|
  {
    if toJudge != [] {
      AgreementsFit(toJudge[..|toJudge| - 1], judge);
    }
  }
}
