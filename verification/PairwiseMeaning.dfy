// What a pairwise comparison decides, in the words of the judge's replies and the answers' lengths.
module PairwiseMeaning {
  import opened Options
  import opened Pairwise
  import opened PairwisePairs
  import opened PairwiseLaws

  // ----- The two replies on a pair

  /** The reply names one of the three words for every criterion. */
  ghost predicate Usable(criteria: set<Criterion>, reply: Reply) {
    reply.Winners? && forall c :: c in criteria ==> c in reply.winner && reply.winner[c] in {"1", "2", "tie"}
  }

  ghost predicate Says(reply: Reply, c: Criterion, word: string) {
    reply.Winners? && c in reply.winner && reply.winner[c] == word
  }

  lemma VerdictWords(criteria: set<Criterion>, reply: Reply)
    ensures Verdicts(criteria, reply).Some? <==> Usable(criteria, reply)
    ensures Usable(criteria, reply) ==> forall c :: c in criteria ==>
      && (Verdicts(criteria, reply).value[c] == First <==> Says(reply, c, "1"))
      && (Verdicts(criteria, reply).value[c] == Second <==> Says(reply, c, "2"))
      && (Verdicts(criteria, reply).value[c] == Even <==> Says(reply, c, "tie"))
  {
    assert VERDICTS.Keys == {"1", "2", "tie"};
  }

  /** The outcome when `forward` read the baseline's answer first and `backward` the candidate's. */
  ghost predicate IsOutcome(o: Outcome, forward: Reply, backward: Reply, c: Criterion) {
    && (o == Candidate <==> Says(forward, c, "2") && Says(backward, c, "1"))
    && (o == Baseline <==> Says(forward, c, "1") && Says(backward, c, "2"))
  }

  /** The orders agree when they name one side, or both say tie. */
  ghost predicate Agree(forward: Reply, backward: Reply, c: Criterion) {
    || (Says(forward, c, "1") && Says(backward, c, "2"))
    || (Says(forward, c, "2") && Says(backward, c, "1"))
    || (Says(forward, c, "tie") && Says(backward, c, "tie"))
  }

  /**
   * A pair is judged exactly when both replies are usable, and then each criterion goes to the side that
   * both orders name, and the orders agree as the replies do.
   */
  lemma JudgedInWords(criteria: set<Criterion>, model: Model, p: Pair, verdict: Option<Judged>)
    requires JudgedByModel(criteria, model, p, verdict)
    ensures var forward := model(p.cand.question, p.base.answer, p.cand.answer);
      var backward := model(p.cand.question, p.cand.answer, p.base.answer);
      && (verdict.Some? <==> Usable(criteria, forward) && Usable(criteria, backward))
      && (verdict.Some? ==>
            && verdict.value.outcome.Keys == criteria
            && verdict.value.agreed.Some? && verdict.value.agreed.value.Keys == criteria
            && forall c :: c in criteria ==>
                 && IsOutcome(verdict.value.outcome[c], forward, backward, c)
                 && (verdict.value.agreed.value[c] <==> Agree(forward, backward, c)))
  {
    var forward := model(p.cand.question, p.base.answer, p.cand.answer);
    var backward := model(p.cand.question, p.cand.answer, p.base.answer);
    VerdictWords(criteria, forward);
    VerdictWords(criteria, backward);
    if verdict.Some? {
      var f, b := Verdicts(criteria, forward).value, Verdicts(criteria, backward).value;
      forall c | c in criteria
        ensures IsOutcome(verdict.value.outcome[c], forward, backward, c)
        ensures verdict.value.agreed.value[c] <==> Agree(forward, backward, c)
      {
        assert DecidesOne(f[c], b[c], verdict.value.outcome[c], verdict.value.agreed.value[c]);
      }
    }
  }

  // ----- A pair of the comparison

  ghost predicate HasAnswer(r: EvaluationResult) {
    r.answer != "" && !r.failed
  }

  /** What the comparison makes of a pair, for one criterion; None when the pair is left undecided. */
  ghost predicate IsDecided(o: Option<Outcome>, criteria: set<Criterion>, model: Model, p: Pair, c: Criterion) {
    var forward := model(p.cand.question, p.base.answer, p.cand.answer);
    var backward := model(p.cand.question, p.cand.answer, p.base.answer);
    if p.base.unanswerable || p.cand.unanswerable then o == None
    else if HasAnswer(p.base) && HasAnswer(p.cand) then
      && (o.Some? <==> Usable(criteria, forward) && Usable(criteria, backward))
      && (o.Some? ==> IsOutcome(o.value, forward, backward, c))
    else if HasAnswer(p.base) then o == Some(Baseline)
    else if HasAnswer(p.cand) then o == Some(Candidate)
    else o == None
  }

  lemma VerdictInWords(criteria: set<Criterion>, model: Model, judge: Judge, p: Pair, c: Criterion)
    requires Standard(criteria, model, judge) && c in criteria
    ensures var v := VerdictOn(criteria, judge, p);
      && (v.Some? ==> v.value.Keys == criteria)
      && IsDecided(if v.Some? then Some(v.value[c]) else None, criteria, model, p, c)
  {
    JudgedInWords(criteria, model, p, judge(0, p));
  }

  /** Under its key each pair is decided by its own two answers and the two replies on them. */
  lemma DecidedInWords(criteria: set<Criterion>, model: Model, judge: Judge, baselines: Repeats, candidates: Repeats,
                       p: Pair, c: Criterion)
    requires AllUnique(baselines) && AllUnique(candidates) && Standard(criteria, model, judge)
    requires p in Pairs(baselines, candidates) && c in criteria
    ensures var entries := Decided(criteria, Pairs(baselines, candidates), judge).entries;
      && (p.key in entries ==> entries[p.key].Keys == criteria)
      && IsDecided(if p.key in entries then Some(entries[p.key][c]) else None, criteria, model, p, c)
  {
    StandardIsTimeless(criteria, model, judge);
    PairsHaveDistinctKeys(baselines, candidates);
    DecidedAt(criteria, Pairs(baselines, candidates), judge, p);
    VerdictInWords(criteria, model, judge, p, c);
  }

  // ----- The counters

  /** The four counters tell the pairs apart by their answers alone. */
  lemma FateInWords(p: Pair)
    ensures var skipped := p.base.unanswerable || p.cand.unanswerable;
      && (FateOf(p) == Skipped <==> skipped)
      && (FateOf(p) == ToJudge <==> !skipped && HasAnswer(p.base) && HasAnswer(p.cand))
      && (FateOf(p) == CandidateError <==> !skipped && HasAnswer(p.base) && !HasAnswer(p.cand))
      && (FateOf(p) == BaselineError <==> !skipped && !HasAnswer(p.base) && HasAnswer(p.cand))
      && (FateOf(p) == BothErrors <==> !skipped && !HasAnswer(p.base) && !HasAnswer(p.cand))
  {
  }

  // ----- The length buckets

  /**
   * Which bucket a pair of lengths is in: between the ratios 1/near and near in the middle, both ends
   * included; from there to 1/far and far, these left out, beside it; and else at the ends.
   */
  lemma BucketInRatios(base: nat, cand: nat, near: real, far: real)
    requires 1.0 <= near < far && base > 0
    ensures var b := LengthBucket(base, cand, near, far); var x, y := base as real, cand as real;
      && (b == Near <==> x <= near * y && y <= near * x)
      && (b == Shorter <==> near * y < x && x < far * y)
      && (b == Longer <==> near * x < y && y < far * x)
      && (b == MuchShorter <==> far * y <= x)
      && (b == MuchLonger <==> far * x <= y)
  {
  }
}
