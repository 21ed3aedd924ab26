// The pairs of a pairwise comparison, what each of them decides, and how a pair is found again
// under its query and repeat.
module PairwisePairs {
  import opened Options
  import opened Listings
  import opened Pairwise

  // ----- The pairs of a comparison

  ghost predicate UniqueIds(results: seq<EvaluationResult>) {
    forall i, j :: 0 <= i < j < |results| ==> results[i].queryId != results[j].queryId
  }

  /** No repeat of a run answers a query twice. */
  ghost predicate AllUnique(runs: Repeats) {
    forall r :: 0 <= r < |runs| ==> UniqueIds(runs[r])
  }

  lemma {:induction false} ByIdFinds(results: seq<EvaluationResult>, id: string)
    ensures id in ById(results) ==> ById(results)[id] in results && ById(results)[id].queryId == id
    ensures id !in ById(results) ==> forall r :: r in results ==> r.queryId != id
  {
    if results != [] {
      var n := |results| - 1;
      assert results == results[..n] + [results[n]];
      ByIdFinds(results[..n], id);
    }
  }

  lemma UniqueMatch(results: seq<EvaluationResult>, x: EvaluationResult, y: EvaluationResult)
    requires UniqueIds(results) && x in results && y in results && x.queryId == y.queryId
    ensures x == y
  {
  }

  /** `p` matches a result of each side in one repeat. */
  ghost predicate Matches(baselines: Repeats, candidates: Repeats, r: nat, keyed: bool, p: Pair)
    requires r < RepeatsOf(baselines, candidates)
  {
    && p.base in baselines[r] && p.cand in candidates[r]
    && p.base.queryId == p.cand.queryId == p.queryId && p.key == Key(p.queryId, r, keyed)
  }

  lemma {:induction false} RepeatPairsMatch(byId: map<string, EvaluationResult>, candidates: seq<EvaluationResult>,
                                           r: nat, keyed: bool, p: Pair)
    ensures p in RepeatPairs(byId, candidates, r, keyed) <==>
              && p.cand in candidates && p.queryId == p.cand.queryId && p.queryId in byId
              && p.base == byId[p.queryId] && p.key == Key(p.queryId, r, keyed)
  {
    if candidates != [] {
      var n := |candidates| - 1;
      assert candidates == candidates[..n] + [candidates[n]];
      RepeatPairsMatch(byId, candidates[..n], r, keyed, p);
    }
  }

  lemma MatchedInRepeat(baselines: Repeats, candidates: Repeats, r: nat, keyed: bool, p: Pair)
    requires AllUnique(baselines) && r < RepeatsOf(baselines, candidates)
    ensures p in RepeatPairs(ById(baselines[r]), candidates[r], r, keyed)
            <==> Matches(baselines, candidates, r, keyed, p)
  {
    RepeatPairsMatch(ById(baselines[r]), candidates[r], r, keyed, p);
    ByIdFinds(baselines[r], p.queryId);
    if Matches(baselines, candidates, r, keyed, p) {
      UniqueMatch(baselines[r], p.base, ById(baselines[r])[p.queryId]);
    }
  }

  /** `p` matches in one of the first `n` repeats. */
  ghost predicate MatchesBefore(baselines: Repeats, candidates: Repeats,
                                n: nat, keyed: bool, p: Pair)
    requires n <= RepeatsOf(baselines, candidates)
  {
    exists r: nat :: r < n && Matches(baselines, candidates, r, keyed, p)
  }

  lemma MatchesNext(baselines: Repeats, candidates: Repeats,
                    n: nat, keyed: bool, p: Pair)
    requires n < RepeatsOf(baselines, candidates)
    ensures MatchesBefore(baselines, candidates, n + 1, keyed, p)
            <==> MatchesBefore(baselines, candidates, n, keyed, p) || Matches(baselines, candidates, n, keyed, p)
  {
    if MatchesBefore(baselines, candidates, n, keyed, p) {
      var r: nat :| r < n && Matches(baselines, candidates, r, keyed, p);
      assert r < n + 1;
    }
  }

  lemma {:induction false} MatchedUpTo(baselines: Repeats, candidates: Repeats,
                                       n: nat, keyed: bool, p: Pair)
    requires AllUnique(baselines) && n <= RepeatsOf(baselines, candidates)
    ensures p in PairsUpTo(baselines, candidates, n, keyed) <==> MatchesBefore(baselines, candidates, n, keyed, p)
  {
    if n > 0 {
      MatchedUpTo(baselines, candidates, n - 1, keyed, p);
      MatchedInRepeat(baselines, candidates, n - 1, keyed, p);
      MatchesNext(baselines, candidates, n - 1, keyed, p);
    }
  }

  /** The pairs are exactly the matches of the two sides, over every repeat both have. */
  lemma PairsAreMatches(baselines: Repeats, candidates: Repeats, p: Pair)
    requires AllUnique(baselines)
    ensures var n := RepeatsOf(baselines, candidates);
            p in Pairs(baselines, candidates) <==> MatchesBefore(baselines, candidates, n, n > 1, p)
  {
    var n := RepeatsOf(baselines, candidates);
    MatchedUpTo(baselines, candidates, n, n > 1, p);
  }

  function SwapPair(p: Pair): Pair {
    p.(base := p.cand, cand := p.base)
  }

  lemma SwappedPair(baselines: Repeats, candidates: Repeats, p: Pair)
    requires AllUnique(baselines) && AllUnique(candidates) && p in Pairs(baselines, candidates)
    ensures SwapPair(p) in Pairs(candidates, baselines)
  {
    PairsAreMatches(baselines, candidates, p);
    PairsAreMatches(candidates, baselines, SwapPair(p));
    var n := RepeatsOf(baselines, candidates);
    var r: nat :| r < n && Matches(baselines, candidates, r, n > 1, p);
    assert Matches(candidates, baselines, r, n > 1, SwapPair(p));
  }

  /** Equal keys mean the same pair. */
  ghost predicate KeysDistinct(pairs: seq<Pair>) {
    forall p, q :: p in pairs && q in pairs && p.key == q.key ==> p == q
  }

  lemma PairsHaveDistinctKeys(baselines: Repeats, candidates: Repeats)
    requires AllUnique(baselines) && AllUnique(candidates)
    ensures KeysDistinct(Pairs(baselines, candidates))
  {
    var n := RepeatsOf(baselines, candidates);
    forall p, q | p in Pairs(baselines, candidates) && q in Pairs(baselines, candidates) && p.key == q.key
      ensures p == q
    {
      PairsAreMatches(baselines, candidates, p);
      PairsAreMatches(baselines, candidates, q);
      var r: nat :| r < n && Matches(baselines, candidates, r, n > 1, p);
      var s: nat :| s < n && Matches(baselines, candidates, s, n > 1, q);
      if n > 1 { KeyInjective(p.queryId, r, q.queryId, s); }
      assert r == s;
      UniqueMatch(baselines[r], p.base, q.base);
      UniqueMatch(candidates[r], p.cand, q.cand);
    }
  }

  // ----- What each pair decides

  /** The judge's answer on a pair does not depend on when it is asked. */
  ghost predicate Timeless(judge: Judge) {
    forall i, j, p :: judge(i, p) == judge(j, p)
  }

  /** What a pair is decided as; None when it is not. */
  function VerdictOn(criteria: set<Criterion>, judge: Judge, p: Pair): Option<map<Criterion, Outcome>> {
    match FateOf(p)
    case CandidateError => Some(Uniform(criteria, Baseline))
    case BaselineError => Some(Uniform(criteria, Candidate))
    case ToJudge => (match judge(0, p) case Some(j) => Some(j.outcome) case None => None)
    case Skipped => None
    case BothErrors => None
  }

  function Get(outcomes: Outcomes, k: string): Option<map<Criterion, Outcome>> {
    if k in outcomes then Some(outcomes[k]) else None
  }

  lemma {:induction false} SettledAt(criteria: set<Criterion>, pairs: seq<Pair>, k: string)
    requires KeysDistinct(pairs)
    ensures k in Settled(criteria, pairs).entries ==> exists p :: p in pairs && p.key == k
    ensures forall p :: p in pairs && p.key == k ==>
              Get(Settled(criteria, pairs).entries, k)
              == if FateOf(p) == CandidateError then Some(Uniform(criteria, Baseline))
                 else if FateOf(p) == BaselineError then Some(Uniform(criteria, Candidate)) else None
  {
    if pairs != [] {
      var n := |pairs| - 1;
      assert pairs == pairs[..n] + [pairs[n]];
      assert forall p :: p in pairs[..n] ==> p in pairs;
      SettledAt(criteria, pairs[..n], k);
    }
  }

  lemma {:induction false} JudgedAt(settled: Dict, toJudge: seq<Pair>, judge: Judge, k: string)
    requires KeysDistinct(toJudge) && Timeless(judge)
    ensures (forall p :: p in toJudge ==> p.key != k) ==>
              Get(WithJudged(settled, toJudge, judge).entries, k) == Get(settled.entries, k)
    ensures forall p :: p in toJudge && p.key == k ==>
              Get(WithJudged(settled, toJudge, judge).entries, k)
              == if judge(0, p).Some? then Some(judge(0, p).value.outcome) else Get(settled.entries, k)
  {
    if toJudge != [] {
      var n := |toJudge| - 1;
      assert toJudge == toJudge[..n] + [toJudge[n]];
      assert forall p :: p in toJudge[..n] ==> p in toJudge;
      assert judge(n, toJudge[n]) == judge(0, toJudge[n]);
      JudgedAt(settled, toJudge[..n], judge, k);
    }
  }

  /** A pair is decided under its key as its own verdict says, whatever the other pairs are. */
  lemma DecidedAt(criteria: set<Criterion>, pairs: seq<Pair>, judge: Judge, p: Pair)
    requires KeysDistinct(pairs) && Timeless(judge) && p in pairs
    ensures Get(Decided(criteria, pairs, judge).entries, p.key) == VerdictOn(criteria, judge, p)
  {
    JudgeableIsPart(pairs);
    assert KeysDistinct(Judgeable(pairs));
    SettledAt(criteria, pairs, p.key);
    JudgedAt(Settled(criteria, pairs), Judgeable(pairs), judge, p.key);
  }

  /** Nothing else is decided. */
  lemma DecidedHasPair(criteria: set<Criterion>, pairs: seq<Pair>, judge: Judge, k: string) returns (p: Pair)
    requires KeysDistinct(pairs) && Timeless(judge) && k in Decided(criteria, pairs, judge).entries
    ensures p in pairs && p.key == k
  {
    JudgeableIsPart(pairs);
    assert KeysDistinct(Judgeable(pairs));
    SettledAt(criteria, pairs, k);
    JudgedAt(Settled(criteria, pairs), Judgeable(pairs), judge, k);
    p :| p in pairs && p.key == k;
  }

  /** `per_query`: each query's outcomes in repeat order, None where the repeat's pair was not decided. */
  function PerQuery(outcomes: Outcomes, queryId: string, repeats: nat): (entries: seq<Option<map<Criterion, Outcome>>>)
    ensures |entries| == repeats
  {
    if repeats == 0 then []
    else PerQuery(outcomes, queryId, repeats - 1) + [Get(outcomes, Key(queryId, repeats - 1, true))]
  }

  lemma {:induction false} PerQueryAt(outcomes: Outcomes, queryId: string, repeats: nat, r: nat)
    requires r < repeats
    ensures PerQuery(outcomes, queryId, repeats)[r] == Get(outcomes, Key(queryId, r, true))
  {
    if r < repeats - 1 {
      PerQueryAt(outcomes, queryId, repeats - 1, r);
    }
  }

  /** Whatever characters the query ids hold, a query's r-th entry is the verdict on its r-th pair. */
  lemma PerQueryIsUnambiguous(criteria: set<Criterion>, baselines: Repeats, candidates: Repeats,
                              judge: Judge, r: nat, p: Pair)
    requires AllUnique(baselines) && AllUnique(candidates) && Timeless(judge)
    requires 1 < RepeatsOf(baselines, candidates) && r < RepeatsOf(baselines, candidates)
    requires Matches(baselines, candidates, r, true, p)
    ensures var outcomes := Decided(criteria, Pairs(baselines, candidates), judge).entries;
            PerQuery(outcomes, p.queryId, RepeatsOf(baselines, candidates))[r] == VerdictOn(criteria, judge, p)
  {
    PairsAreMatches(baselines, candidates, p);
    PairsHaveDistinctKeys(baselines, candidates);
    DecidedAt(criteria, Pairs(baselines, candidates), judge, p);
    PerQueryAt(Decided(criteria, Pairs(baselines, candidates), judge).entries, p.queryId,
               RepeatsOf(baselines, candidates), r);
  }

  // ----- The measured pairs are the judged ones

  /** No key comes twice. */
  ghost predicate KeysDiffer(pairs: seq<Pair>) {
    forall i, j :: 0 <= i < j < |pairs| ==> pairs[i].key != pairs[j].key
  }

  lemma KeysDifferJoined(a: seq<Pair>, b: seq<Pair>)
    requires KeysDiffer(a) && KeysDiffer(b)
    requires forall p, q :: p in a && q in b ==> p.key != q.key
    ensures KeysDiffer(a + b)
  {
    var all := a + b;
    forall i, j | 0 <= i < j < |all|
      ensures all[i].key != all[j].key
    {
      if i < |a| <= j {
        assert all[i] in a && all[j] in b;
      }
    }
  }

  lemma {:induction false} RepeatKeysDiffer(byId: map<string, EvaluationResult>, candidates: seq<EvaluationResult>,
                                           r: nat, keyed: bool)
    requires UniqueIds(candidates)
    ensures KeysDiffer(RepeatPairs(byId, candidates, r, keyed))
  {
    if candidates != [] {
      var n := |candidates| - 1;
      var before := RepeatPairs(byId, candidates[..n], r, keyed);
      RepeatKeysDiffer(byId, candidates[..n], r, keyed);
      forall p | p in before
        ensures p.key != Key(candidates[n].queryId, r, keyed)
      {
        RepeatPairsMatch(byId, candidates[..n], r, keyed, p);
        if keyed && p.key == Key(candidates[n].queryId, r, keyed) {
          KeyInjective(p.queryId, r, candidates[n].queryId, r);
        }
      }
    }
  }

  lemma {:induction false} KeysOfRepeats(baselines: Repeats, candidates: Repeats, n: nat, p: Pair)
    requires n <= RepeatsOf(baselines, candidates) && p in PairsUpTo(baselines, candidates, n, true)
    ensures exists r :: 0 <= r < n && p.key == Key(p.queryId, r, true)
  {
    if p in PairsUpTo(baselines, candidates, n - 1, true) {
      KeysOfRepeats(baselines, candidates, n - 1, p);
    } else {
      RepeatPairsMatch(ById(baselines[n - 1]), candidates[n - 1], n - 1, true, p);
    }
  }

  lemma {:induction false} KeysDifferUpTo(baselines: Repeats, candidates: Repeats, n: nat, keyed: bool)
    requires AllUnique(candidates) && n <= RepeatsOf(baselines, candidates) && (n > 1 ==> keyed)
    ensures KeysDiffer(PairsUpTo(baselines, candidates, n, keyed))
  {
    if n > 0 {
      var before := PairsUpTo(baselines, candidates, n - 1, keyed);
      var here := RepeatPairs(ById(baselines[n - 1]), candidates[n - 1], n - 1, keyed);
      KeysDifferUpTo(baselines, candidates, n - 1, keyed);
      RepeatKeysDiffer(ById(baselines[n - 1]), candidates[n - 1], n - 1, keyed);
      forall p, q | p in before && q in here
        ensures p.key != q.key
      {
        KeysOfRepeats(baselines, candidates, n - 1, p);
        var r :| 0 <= r < n - 1 && p.key == Key(p.queryId, r, true);
        RepeatPairsMatch(ById(baselines[n - 1]), candidates[n - 1], n - 1, keyed, q);
        if p.key == q.key {
          KeyInjective(p.queryId, r, q.queryId, n - 1);
        }
      }
      KeysDifferJoined(before, here);
    }
  }

  lemma {:induction false} JudgeableKeysDiffer(pairs: seq<Pair>)
    requires KeysDiffer(pairs)
    ensures KeysDiffer(Judgeable(pairs))
  {
    if pairs != [] {
      var n := |pairs| - 1;
      JudgeableKeysDiffer(pairs[..n]);
      JudgeableIsPart(pairs[..n]);
      forall p | p in Judgeable(pairs[..n])
        ensures p.key != pairs[n].key
      {
        var i :| 0 <= i < n && pairs[..n][i] == p;
        assert pairs[i] == p;
      }
      KeysDifferJoined(Judgeable(pairs[..n]), [pairs[n]]);
    }
  }

  /** The judged keys, each once. */
  lemma {:induction false} JudgedOnce(toJudge: seq<Pair>, judge: Judge, bucket: Pair -> Bucket)
    requires KeysDiffer(toJudge)
    ensures Lists(JudgedKeys(toJudge, judge), BucketsOf(toJudge, judge, bucket).Keys)
    ensures forall k :: k in JudgedKeys(toJudge, judge) ==> exists p :: p in toJudge && p.key == k
  {
    if toJudge != [] {
      var n := |toJudge| - 1;
      JudgedOnce(toJudge[..n], judge, bucket);
      var k := toJudge[n].key;
      ListsAppend(JudgedKeys(toJudge[..n], judge), BucketsOf(toJudge[..n], judge, bucket).Keys, k);
      assert k !in JudgedKeys(toJudge[..n], judge);
      assert toJudge[n] in toJudge;
    }
  }

  lemma {:induction false} BucketsWithin(settled: Dict, toJudge: seq<Pair>, judge: Judge, bucket: Pair -> Bucket)
    ensures BucketsOf(toJudge, judge, bucket).Keys <= WithJudged(settled, toJudge, judge).entries.Keys
  {
    if toJudge != [] {
      BucketsWithin(settled, toJudge[..|toJudge| - 1], judge, bucket);
    }
  }

  /** The listed keys that were measured are the measured ones, each once. */
  lemma {:induction false} MeasuredOnce(order: seq<string>, keys: set<string>, buckets: map<string, Bucket>)
    requires Lists(order, keys)
    ensures Lists(Measured(order, buckets), keys * buckets.Keys)
  {
    if order != [] {
      var n := |order| - 1;
      var last, rest := order[n], keys - {order[n]};
      assert order == order[..n] + [last];
      MeasuredOnce(order[..n], rest, buckets);
      ListsAppend(Measured(order[..n], buckets), rest * buckets.Keys, last);
      assert keys * buckets.Keys == if last in buckets then rest * buckets.Keys + {last} else rest * buckets.Keys;
    }
  }

  /** Every judged pair is measured, and counted in exactly one length bucket: the summary's pairs are the judged ones. */
  lemma JudgedAreMeasured(criteria: set<Criterion>, baselines: Repeats, candidates: Repeats, judge: Judge,
                          bucket: Pair -> Bucket, s: LengthSummary)
    requires Complete(criteria, judge) && AllUnique(candidates)
    requires Partitions(s, Decided(criteria, Pairs(baselines, candidates), judge).order,
                        BucketsOf(Judgeable(Pairs(baselines, candidates)), judge, bucket))
    ensures s.pairs == |JudgedKeys(Judgeable(Pairs(baselines, candidates)), judge)|
    ensures s.counts[MuchShorter] + s.counts[Shorter] + s.counts[Near] + s.counts[Longer] + s.counts[MuchLonger]
         == |JudgedKeys(Judgeable(Pairs(baselines, candidates)), judge)|
  {
    var pairs := Pairs(baselines, candidates);
    var n, toJudge := RepeatsOf(baselines, candidates), Judgeable(pairs);
    var d, buckets := Decided(criteria, pairs, judge), BucketsOf(toJudge, judge, bucket);
    KeysDifferUpTo(baselines, candidates, n, n > 1);
    JudgeableKeysDiffer(pairs);
    JudgedOnce(toJudge, judge, bucket);
    ListedSize(JudgedKeys(toJudge, judge), buckets.Keys);
    DecidedIsReady(criteria, pairs, judge);
    BucketsWithin(Settled(criteria, pairs), toJudge, judge, bucket);
    MeasuredOnce(d.order, d.entries.Keys, buckets);
    assert d.entries.Keys * buckets.Keys == buckets.Keys;
    ListedSize(Measured(d.order, buckets), buckets.Keys);
  }
}
