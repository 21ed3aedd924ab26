# Verified models of the evaluation engine and the operational protocols

This project models the statistics, judging and ranking algorithms of the evaluation engine and
four operational protocols (the ingestion state machine, the plugin-package controller, the S3
mirror and the caching resolver), and proves what they promise. To verify it, run

    dafny verify dfyconfig.toml

Conventions shared by the modules:

- Floats are exact reals; the only trace of rounding is the tolerance of the sign-flip test, which is
  kept. A p-value compared with a level is stated as a count over a whole (`Share`), a rate as a part
  and a whole.
- A random generator is an arbitrary function or sequence. Model replies, service replies, clocks and
  pool schedules are arbitrary inputs or arbitrary events.
- A loop of the source is a loop here, proved equal to a specification function; the theorems are then
  about that function. Objects the source updates in place (the resolver's cache, the mirrored
  directory, the domain, a delta) are classes.

## The modules

- `SignFlip`, `SignFlipMeaning`, `SignFlipLevel`, `RandomLevel`, `Holm`, `FamilyWise`: the sign-flip randomization test, its
  level, Holm's adjustment and the promise they make together. The level of the exact test is a
  bijection argument: re-flipping the deltas permutes the sign patterns, so every re-flip sees the same
  sums and its p-value is a rank among them. That of the random test counts the marked row in all
  choices of observed and drawn rows. Holm's running maximum is shown to be the closure of Bonferroni's
  test over every set of hypotheses, from which monotonicity, equivariance, the step-down rule and,
  with the union bound, the familywise level follow.
- `Comparison`, `RunsAndRates`, `FailedAnswers`, `Costs`, `CostMeaning`, `Deltas`, `DeltaMeaning`, `RowViews`: per-query means with failed answers
  filled, what a failure does to the deltas, what an answer costs, paired deltas with their statistics,
  and the two separately computed views of a comparison (deltas and rows) that must agree over any runs.
- `Multiplicity`, `Gates`, `GateMeaning`, `CostGates`: the test families, adjusted in place, the regression gates that
  must fail closed, and what their counters say of the answers behind them.
- `PairedComparison`, `UnpricedAnswers`: a whole comparison, from the runs to the delta objects and
  counters that the adjustment and the gates read, and runs whose missing price no gate sees.
- `Exchange`, `GateLevel`, `RunsToGate`: exchanging the two sides' values flips the deltas' signs; so,
  from the runs through the comparison and Holm's adjustment to the gate, a measure without a
  difference is rarely blamed.
- `Pairwise`, `PairwisePairs`, `PairwiseMeaning`, `WinRates`, `PairwiseLaws`: both-order judging over repeats. The comparison is a
  method with the source's loops; its laws (swap antisymmetry, the judge that only looks at the position,
  unambiguous `<query_id>#<repeat>` keys) are proved about what those loops compute.
- `TrialOrders`, `AssertionTrials`: the distinct shuffles of the trials, parsing, undoing the shuffle,
  and majorities.
- `RankedFiles`: the ranking of retrieved files and the scores at k.
- `Abba`: the interleaved order of several runs and the identity-keyed scatter of their answers.
- `SourceResolver`: the negative cache, as a class and as a state machine over interleaved calls.
- `S3Sync`: the mirror, as a class over a map-valued file system and as a state machine in which the
  bucket changes under the syncs.
- `NoriPackage`: the polled controller against a domain that others act on between any two of its calls.
- `SpotMachine`: the ingestion machine, following the Amazon States Language specification, sections
  "Retrying after error", "Complex retry scenarios" and "Fallback states".
- `Slugs`, `EnvPaths`, `Decimals`: the heading ids with their counters, the environment-variable codec
  of config paths, and decimal rendering.
- `Options`, `Reals`, `Listings`: shared datatypes, sums, listings of keys, and sizes of sets.

The modules whose names end in `Meaning`, `WinRates` and `RunsAndRates` say what the computed values are
in terms of the inputs alone, without the functions that compute them.

## Properties that hold only under a condition

Several promises are true only under a condition, which is proved to be the exact one or shown to be
needed by a run or input that breaks the promise without it:

- A failed answer keeps its query in the pairs exactly when some run still scores the query on the
  metric and the strategy still scores the metric somewhere, or nothing at all; on a metric that is
  never filled, exactly when another run of the strategy still reports it; and the baseline has a value
  for it (`Comparison.FailureKeepsPairIff`, for the strategy's own value
  `Comparison.FailureKeepsQueryIff`).
- On a rate that is better the lower it is, a failed answer is not counted at all, so failing can improve
  a strategy: it lowers the query's value exactly when another run has one and the failed answer's own
  were above the mean of the others' (`RunsAndRates.FailureImprovesIff`, with two runs in
  `RunsAndRates.FailureCanImprove`).
- A p-value counts exactly the choices of signs that reach the observed sum when none is a near miss, and
  is as small as 2/2^n exactly when the deltas are all for one side and none is lost in the tolerance
  (`SignFlipMeaning.ExactCountsReaching`, `SignFlipMeaning.SmallestPValueIff`).
- A cost gate without a breach has read every answer of both sides exactly when its measure is not
  `usage/cost_usd` or every usage record is priced (`CostGates.NoBreachMeansMeasured`). An answer of an
  unpriced model has no USD, no counter counts it, and the gate passes on the other answers
  (`CostGates.UnpricedAnswerPasses`), against what its documentation says
  (`unified_kg_rag/evaluation/gates.py:17-21`). `UnpricedAnswers.UnpricedRun` gives the runs and what
  their own comparison and gate make of them.
- The resolver's names are always right. Its absences are right when no answered batch was fetched under
  a limit below its size that was raised to its size or more before its call read the limit again
  (`SourceResolver.CacheAlwaysAgrees`). In any run with such a batch, a document of it that no fetch
  tells of is cached as absent, and the same events are a run over a store that has it
  (`SourceResolver.RaisedLimitCachesAbsence`, with a concrete run in `SourceResolver.RaisedLimitRun`).
  A cached absence is certain exactly when some fetch shows it (`SourceResolver.AbsenceIsCertainIff`).
- The mirror needs distinct targets among the keys the bucket ever held, which keys with normal relative
  names have (`S3Sync.NormalKeysAreDistinct`, `S3Sync.CollidingKeysHaveNoMirror`,
  `S3Sync.SlashesCollide`), and versions whose time stamps increase (`S3Sync.EqualTimesGoUnnoticed`).
- No Spot re-run meets a live lease when the wait is at least the lease term, and with any shorter
  wait one can (`SpotMachine.RerunMeetsNoLiveLease`, `SpotMachine.ShortWaitMeetsLiveLease`).
- A length ratio and its reciprocal land in mirror buckets unless both answers have no tokens: two such
  answers count as the longest bucket both ways (`Pairwise.MirrorBuckets`).
- "Every key can be set this way" holds exactly for key paths without a capital letter, without a
  double underscore or a dot in a segment and without an underscore at the end of a segment that is not
  the last (`EnvPaths.KeyIsSetByItsVariable`). The variable of a mapping key with a capital letter sets
  the lower-case key instead (`EnvPaths.CapitalKeyNamesAnother`); that of a mapping key with a dot names
  nothing (`EnvPaths.DottedKeyNamesNothing`), such as an `index_settings` key with its `index.` prefix or
  the price of a model whose id has a dot (`unified_kg_rag/domain/models/config.py:3003-3010`,
  `unified_kg_rag/domain/models/config.py:6359-6363`).

## Model

| member | source | states |
|---|---|---|
| SignFlip.SignFlipPValue | unified_kg_rag/evaluation/comparison.py:203-234 | the chunked loop returns the p-value over all its drawn rows, the exact branch the share of the whole pattern table, 1 without a non-zero delta |
| SignFlip.TableEntry | unified_kg_rag/evaluation/comparison.py:222-226 | row k of the shift-and-mask pattern table gives the sum of the deltas under the k-th choice of signs |
| SignFlip.PermutationInvariant | unified_kg_rag/evaluation/comparison.py:203-227 | the exact p-value does not depend on the order of the deltas |
| SignFlip.NegationInvariant | unified_kg_rag/evaluation/comparison.py:203-227 | exchanging the two sides of the comparison keeps the exact p-value |
| SignFlip.SmallestPValue | unified_kg_rag/evaluation/comparison.py:217-227 | an exact p-value is at least 2^(1-n) over n non-zero deltas and at most 1; it is 1 when there are none |
| SignFlip.RandomPValueRange | unified_kg_rag/evaluation/comparison.py:210-234 | a random p-value is at least 1/(1+resamples), so never 0, and at most 1 |
| SignFlipMeaning.ExactCountsReaching | unified_kg_rag/evaluation/comparison.py:210-227 | an exact p-value is the share of all choices of signs that reach the observed sum, exactly when no choice falls short of it by no more than 1e-9 times the larger of 1 and the sum of the absolute deltas |
| SignFlipMeaning.RandomCountsReaching | unified_kg_rag/evaluation/comparison.py:210-234 | likewise over the drawn rows, one more row counted on both sides |
| SignFlipMeaning.SmallestPValueIff | unified_kg_rag/evaluation/comparison.py:203-227 | with two non-zero deltas or more an exact p-value is 2/2^n exactly when no delta is for the other side and twice each is above that tolerance of their sum |
| SignFlipLevel.ExactTestHoldsItsLevel | unified_kg_rag/evaluation/comparison.py:203-227 | at most a share alpha of the 2^n sign re-flips of any deltas get an exact p-value of alpha or less, for every alpha |
| SignFlipLevel.RandomTestHoldsItsLevel | unified_kg_rag/evaluation/comparison.py:217-234 | in any one set of rows, at most a share alpha of the choices of the observed row get a p-value of alpha or less |
| RandomLevel.RandomTestLevel | unified_kg_rag/evaluation/comparison.py:228-234 | over all equally likely choices of the observed signs and of every drawn row together, at most a share alpha get a p-value of alpha or less |
| Holm.HolmAdjusted | unified_kg_rag/evaluation/comparison.py:237-248 | the running-maximum loop gives every test its closed-test value: the largest of min(1, size of S times the least p-value of S) over the sets S that hold it |
| Holm.AdjustedIsClosedTest | unified_kg_rag/evaluation/comparison.py:237-248 | Holm's adjustment is the closure of Bonferroni's test |
| Holm.OrderIsStableSorting | unified_kg_rag/evaluation/comparison.py:245 | the order used is a sorting by p-value that keeps ties in index order |
| Holm.TiesKeepTheirOrder | unified_kg_rag/evaluation/comparison.py:245 | a smaller p-value comes first, and of equal ones the lower index |
| Holm.TieOrderIrrelevant | unified_kg_rag/evaluation/comparison.py:245-247 | any other sorting gives the same adjusted values: ties may be ordered in any way |
| Holm.AdjustedMonotone | unified_kg_rag/evaluation/comparison.py:237-248 | raising p-values lowers no adjusted value |
| Holm.AdjustedBounds | unified_kg_rag/evaluation/comparison.py:238-239 | an adjusted value lies between min(1, p) and min(1, m p) |
| Holm.AdjustedEquivariant | unified_kg_rag/evaluation/comparison.py:238-248 | adjusting reordered p-values reorders the adjusted ones |
| Holm.AdjustedDecidesStepDown | unified_kg_rag/evaluation/comparison.py:237-241 | the tests adjusted to alpha or less are exactly those the step-down procedure rejects |
| Holm.RejectionNeedsSmallPValue | unified_kg_rag/evaluation/comparison.py:240-241 | if some test of a set T is adjusted to alpha or less, some test of T has a p-value of at most alpha over the size of T |
| FamilyWise.FamilyWiseError | unified_kg_rag/evaluation/comparison.py:240-241 | if every true null holds its level, some true null is rejected in at most a share alpha of the outcomes, whatever the other tests do |
| FamilyWise.HolmOverSignFlips | unified_kg_rag/evaluation/comparison.py:203-248 | Holm over exact sign-flip p-values: over the 2^n exchanges of the two strategies a measure without a true difference is rejected in at most a share alpha |
| Comparison.PerQueryMeans | unified_kg_rag/evaluation/comparison.py:153-181 | the loops compute, per metric and query, the mean of exactly the values the runs reported or that a failed answer fills |
| Comparison.FailureNeverRaises | unified_kg_rag/evaluation/comparison.py:106-181 | replacing a scored answer by a failed one never raises the strategy's mean for that query, keeps the query, and moves no other strategy's value |
| Comparison.FailureNeverRaisesDelta | unified_kg_rag/evaluation/comparison.py:106-181 | so it never raises the paired delta and never takes the query out of the pairs |
| Comparison.FailureKeepsQueryIff | unified_kg_rag/evaluation/comparison.py:106-142 | after a failed answer the strategy keeps a value for the query exactly when the fill rule still covers it, or, on a metric never filled, when one of its runs still reports it |
| Comparison.FailureKeepsPairIff | unified_kg_rag/evaluation/comparison.py:106-142 | so a failed answer keeps its query in the pairs exactly when the baseline has a value for it and the strategy keeps one |
| Comparison.OtherQueriesUnmoved | unified_kg_rag/evaluation/comparison.py:106-181 | a failed answer moves no value of any other query, of any strategy, while its strategy still scores the metric |
| FailedAnswers.FailureNeverRaisesMeanDelta | unified_kg_rag/evaluation/comparison.py:251-282 | failing gains nothing: afterwards the delta is over the same queries, no query's value is higher, only the failed query's can change, and the mean delta is no higher |
| Comparison.FailureIsNoDecline | unified_kg_rag/evaluation/comparison.py:149-177 | a failed answer is no decline: failing keeps the query and never raises its abstention recall |
| RunsAndRates.DeclinesCounted | unified_kg_rag/evaluation/comparison.py:145-177 | a query's abstention recall is over its unanswerable answers and counts those that declined without having failed |
| RunsAndRates.RunOrderIrrelevant | unified_kg_rag/evaluation/comparison.py:164-181 | a per-query mean does not depend on the order of the runs |
| RunsAndRates.MeanWithin | unified_kg_rag/evaluation/comparison.py:178-181 | it lies between the least and the greatest of its values |
| RunsAndRates.FailureLeavesTheOthers | unified_kg_rag/evaluation/comparison.py:85-103 | on a rate that is better the lower it is, as on a diagnostic, a failed answer leaves the query the mean of the other runs' values, or none |
| RunsAndRates.FailureImprovesIff | unified_kg_rag/evaluation/comparison.py:97-103 | so failing lowers it exactly when another run has a value for the query and the failed answer's own were above the mean of the others' |
| RunsAndRates.FailureCanImprove | unified_kg_rag/evaluation/comparison.py:97-103 | the worse of two runs fails and the rate falls to the other's |
| Deltas.DeltaStats | unified_kg_rag/evaluation/comparison.py:251-282 | the paired statistics over the queries both sides scored: None exactly when they share none; wins, ties and losses count the signs; the interval is the bootstrap's and the p-value the sign-flip test's of the very values the delta states |
| DeltaMeaning.WinsAreAbove | unified_kg_rag/evaluation/comparison.py:251-282 | wins, ties and losses are the numbers of shared queries on which the strategy is above, level with and below the baseline; pairs and unpaired those of shared and other queries |
| DeltaMeaning.AboveEverywhere | unified_kg_rag/evaluation/comparison.py:251-282 | above the baseline on every shared query means a win on every pair and a positive mean delta |
| DeltaMeaning.MeanWithin | unified_kg_rag/evaluation/comparison.py:270-277 | the mean delta lies between the least and the greatest difference |
| DeltaMeaning.OtherWayRound | unified_kg_rag/evaluation/comparison.py:251-282 | comparing the other way round exchanges wins and losses, keeps the pairs and negates the mean delta |
| Deltas.CostMeans | unified_kg_rag/evaluation/comparison.py:833-960 | the cost loop computes, per measure and query, the mean over every answer that has the measure |
| Costs.HasMeasure | unified_kg_rag/evaluation/comparison.py:767-851 | an answer has the usage measures with its usage record, the latency with its response time, and USD exactly with a record whose every model has the prices its calls need |
| CostMeaning.UsdIff | unified_kg_rag/evaluation/comparison.py:767-791 | an answer has a USD cost exactly with a usage record, a price list, and token prices for every model it called and unit prices for every one it reranked with |
| CostMeaning.UnitCosts | unified_kg_rag/evaluation/comparison.py:794-819 | a million input, output, cache-read or cache-written tokens cost that price, the cached ones the input price when they have none |
| CostMeaning.CostsAdd | unified_kg_rag/evaluation/comparison.py:794-808 | the USD of two counts of one model, cached tokens among the input, add up |
| CostMeaning.RecordCosts | unified_kg_rag/evaluation/comparison.py:784-791 | a record costs what its models' calls cost together |
| CostMeaning.MeasuresOfRecord | unified_kg_rag/evaluation/comparison.py:833-851 | the usage measures are the record's totals, all tokens those read and written, and the latency the answer's |
| RowViews.DeltasVsBaseline | unified_kg_rag/evaluation/comparison.py:449-593 | every strategy but the first gets exactly the deltas of the measures it shares queries on, each with its interval and p-value |
| RowViews.SkippedIff | unified_kg_rag/evaluation/comparison.py:952-964 | only the USD delta is ever left out, and exactly when one of the two sides meters its rerank requests and the other does not |
| RowViews.PerQueryRows | unified_kg_rag/evaluation/comparison.py:1183-1228 | per strategy but the first and measure, one row for each query either side has a mean for, with both means and their difference, and no other row |
| RowViews.TwoViewsAgree | unified_kg_rag/evaluation/comparison.py:855-960 | over any runs: for every strategy but the first and every metric and cost measure with a delta, its rows are pairs + unpaired, state a difference exactly where the delta has one, with its value, and average to the mean delta; rows without a delta state none, unless the delta is left out for its prices; no key is both a metric's and a cost measure's |
| RowViews.FamiliesDiffer | unified_kg_rag/evaluation/comparison.py:750-757 | no key of any strategy's metric means is one of any strategy's cost means, so the rows' cost measures overwrite no metric |
| RowViews.SameTables | unified_kg_rag/evaluation/comparison.py:1193-1207 | the tables recomputed for the rows equal those of the comparison, for metrics and cost measures |
| Multiplicity.FamiliesPartition | unified_kg_rag/evaluation/comparison.py:1140-1151 | every eligible delta of a compared strategy is in exactly one family once, any other delta in none |
| Multiplicity.FamiliesAreDisjoint | unified_kg_rag/evaluation/comparison.py:1140-1151 | the families share no delta object and repeat none |
| Multiplicity.ChoosePrimary | unified_kg_rag/evaluation/comparison.py:1128-1139 | the primary metric is the declared or default one if a compared strategy has a delta of it, else none; a warning exactly when it was declared and something is compared |
| Multiplicity.PrimaryInWords | unified_kg_rag/evaluation/comparison.py:1128-1139 | undeclared it is `answer_match/answer_contains` where that is compared; a declared metric without a delta is warned of |
| Multiplicity.Adjust | unified_kg_rag/evaluation/comparison.py:1128-1170 | each family's deltas get Holm's value and the simultaneous interval of that family, in place; every other delta is untouched |
| Multiplicity.TestedWhenCompared | unified_kg_rag/evaluation/comparison.py:1145-1151 | a strategy's delta is adjusted exactly when the strategy is not excluded and the delta has a p-value and per-query values |
| Multiplicity.UntestedInNone | unified_kg_rag/evaluation/comparison.py:1140-1151 | a delta stays out of all families, and so unadjusted, exactly when it is not tested |
| Multiplicity.AdjustAgain | unified_kg_rag/evaluation/comparison.py:1091-1180 | adjusting an adjusted comparison changes no delta |
| Gates.ChecksAreRight | unified_kg_rag/evaluation/gates.py:195-264 | the ordered checks find nothing exactly when the gate passes, and what they find is the case |
| Gates.OneBreach | unified_kg_rag/evaluation/gates.py:195-264 | a breach never holds of a passing gate, and at most one of the reasons is the first |
| Gates.GateBreaches | unified_kg_rag/evaluation/gates.py:195-264 | one line per gated strategy and failing gate, in order, none for a closed-book arm |
| Gates.NoBreachMeansAllPass | unified_kg_rag/evaluation/gates.py:195-264 | no line exactly when every gated strategy has, for every gate, comparable sides, a delta of at least 10 pairs, the statistic, and a false condition |
| GateMeaning.GateReadsValues | unified_kg_rag/evaluation/gates.py:251-264 | with comparable sides and ten pairs, a gate has no breach exactly when its condition is not met by the mean of the differences, the lower or upper end of the bootstrap interval of the delta's values, or their sign-flip p-value, as its statistic says |
| GateMeaning.GateReadsFamily | unified_kg_rag/evaluation/gates.py:29-39 | a gate on an adjusted statistic, exactly when the condition is not met by Holm's value in the family or by the lower or upper end of the interval at confidence 1 - alpha/m |
| GateMeaning.GateReadsRatio | unified_kg_rag/evaluation/gates.py:243-264 | a gate on the difference of two ratios reads its own mean and interval, and on its p-value, which it has not, has a breach |
| GateMeaning.UnadjustedBreaches | unified_kg_rag/evaluation/gates.py:35-39 | a gate on an adjusted statistic of a delta no adjustment reached has a breach |
| GateMeaning.FewPairsBreach | unified_kg_rag/evaluation/gates.py:243-250 | with nine pairs or fewer, and only then, the breach is that |
| GateMeaning.ComparableIff | unified_kg_rag/evaluation/gates.py:136-192 | the sides are comparable on a cost measure exactly when neither lacks it on an answer and both failed equally often, on a metric when it could not be scored equally often; what was not counted is 0 |
| Gates.AdjustThenGate | unified_kg_rag/evaluation/gates.py:29-39 | end to end: with no breach, a gate on an adjusted p-value read the value Holm gave the delta in its own family |
| Exchange.ExchangedPValue | unified_kg_rag/evaluation/comparison.py:203-282 | when the two sides' values are exchanged by the k-th choice of signs, the delta's p-value is that of the k-th re-flip of the observed differences |
| GateLevel.GateRarelyBlames | unified_kg_rag/evaluation/gates.py:29-39 | over the 2^n exchanges of the two sides, each compared, adjusted and gated, a gate on an adjusted p-value of at most alpha breaches on a measure without a difference in at most a share alpha |
| RunsToGate.RunsAreTested | unified_kg_rag/evaluation/comparison.py:1091-1180 | the adjusted comparison of runs whose values of a measure are exchanged tests that measure, on the exchanged values, in the measure's own family |
| RunsToGate.RunsAreRarelyBlamed | unified_kg_rag/evaluation/gates.py:29-39 | the same promise from the runs themselves |
| CostGates.CountCosts | unified_kg_rag/evaluation/comparison.py:883-938 | the counting loop gives the answers without a usage record or a latency and those that failed |
| CostGates.CountFailing | unified_kg_rag/evaluation/comparison.py:692-699 | the counting loop gives, under each metric's own text, the reports that could not score it |
| CostGates.NoBreachMeansMeasured | unified_kg_rag/evaluation/gates.py:136-192 | with no line, a gate on a cost measure read every answer of both sides exactly when the measure is not USD or all are priced, with as many failures on either side; a gate on a metric, sides that failed to score it equally often |
| CostGates.MeansReadEveryAnswer | unified_kg_rag/evaluation/comparison.py:883-912 | a measure's per-query means are over every answer to every query exactly when every answer has the measure |
| PairedComparison.Compare | unified_kg_rag/evaluation/comparison.py:449-593 | from the runs: both delta tables, the rows with one delta object of its own per entry, and counters that count the runs' answers |
| PairedComparison.GateReadsTheRuns | unified_kg_rag/evaluation/gates.py:195-264 | a gate on a metric or cost measure reads the delta the runs have of it, and none if they have none |
| CostGates.UnpricedAnswerPasses | unified_kg_rag/evaluation/gates.py:136-159 | when every answer has a usage record and both sides failed alike, a USD gate its delta clears passes although an unpriced answer has no USD |
| UnpricedAnswers.UnpricedRun | unified_kg_rag/evaluation/gates.py:136-159 | for any number n of priced answers beside an unpriced one: the comparison these runs give has a USD delta of 0 over n queries, and a USD gate that 0 does not breach has no line |
| Pairwise.Combine | unified_kg_rag/evaluation/pairwise.py:275-287 | a side wins a criterion exactly when both orders name it; the orders agree exactly when they name the same side or both a tie |
| Pairwise.KeyInjective | unified_kg_rag/evaluation/pairwise.py:380-381 | the key of a repeat's pair names one query id and one repeat, whatever characters the id holds |
| Pairwise.CompareRepeats | unified_kg_rag/evaluation/pairwise.py:353-514 | pairs = judged + failed + the four counters, each counter exact; wins + losses + ties = decided outcomes per criterion; the tallies, with the clustered win rate, are those of the decided outcomes; the length buckets partition the measured pairs |
| Pairwise.TallyCriterion | unified_kg_rag/evaluation/pairwise.py:445-475 | counts, the mean over queries of each query's mean, None without a judged pair, and the agreeing orders |
| WinRates.RateIsMeanShare | unified_kg_rag/evaluation/pairwise.py:445-470 | a clustered win rate is the mean, over the queries, of wins and half the ties over their decided pairs |
| WinRates.RateOfSingles | unified_kg_rag/evaluation/pairwise.py:445-470 | with one decided pair per query it is (wins + ties/2) / (wins + losses + ties) of the same tally |
| WinRates.RateOfSweep | unified_kg_rag/evaluation/pairwise.py:86 | it is 1 when the candidate wins every decided pair, 0 when the baseline does, 1/2 when all tie |
| WinRates.WinRaisesRate | unified_kg_rag/evaluation/pairwise.py:445-470 | turning one lost pair into a won one raises it by one over the query's decided pairs and over the queries |
| Pairwise.SummariseLengths | unified_kg_rag/evaluation/pairwise.py:140-166 | every measured pair is counted in exactly one length bucket |
| Pairwise.MirrorBuckets | unified_kg_rag/evaluation/pairwise.py:108-132 | a ratio and its reciprocal land in mirror buckets unless both answers have no tokens |
| PairwiseMeaning.BucketInRatios | unified_kg_rag/evaluation/pairwise.py:108-121 | the middle bucket holds the ratios between 1/near and near, both ends included, the ones beside it those strictly within 1/far and far |
| PairwisePairs.PairsAreMatches | unified_kg_rag/evaluation/pairwise.py:372-390 | the pairs are exactly the results of the two sides with one query id in one repeat |
| PairwisePairs.DecidedAt | unified_kg_rag/evaluation/pairwise.py:391-434 | a pair's outcome under its key depends on that pair alone: the answered side wins, the judge decides, or it stays undecided |
| PairwiseMeaning.DecidedInWords | unified_kg_rag/evaluation/pairwise.py:391-434 | in the standard mode a pair is decided by its own two answers and the judge's two replies: a side wins a criterion when both orders name it, an unusable reply leaves the pair undecided |
| PairwiseMeaning.JudgedInWords | unified_kg_rag/evaluation/pairwise.py:231-287 | the verdicts are the words 1, 2 and tie of the two replies, and the orders agree when they name one side or both tie |
| PairwiseMeaning.FateInWords | unified_kg_rag/evaluation/pairwise.py:391-408 | the four counters tell the pairs apart by which answers are empty, failed or unanswerable |
| PairwisePairs.PerQueryIsUnambiguous | unified_kg_rag/evaluation/pairwise.py:483-489 | the r-th entry of a query is the verdict on its r-th pair |
| PairwisePairs.JudgedAreMeasured | unified_kg_rag/evaluation/pairwise.py:391-434 | the length summary's pairs are the judged pairs: each is counted in exactly one bucket |
| PairwiseLaws.SwapMirrorsOutcomes | unified_kg_rag/evaluation/pairwise.py:260-287 | exchanging baseline and candidate decides the same keys, each outcome mirrored |
| PairwiseLaws.SwapAntisymmetry | unified_kg_rag/evaluation/pairwise.py:353-470 | exchanging the sides exchanges wins and losses, keeps ties, and the two clustered win rates sum to 1 |
| PairwiseLaws.PositionalJudgeDecidesNothing | unified_kg_rag/evaluation/pairwise.py:9-14 | a judge that goes by the position ties every pair it judges, and if it never says tie no two orders agree |
| TrialOrders.Shuffle | unified_kg_rag/evaluation/assertion_evaluator.py:130 | the in-place swaps are the shuffle's steps |
| TrialOrders.TrialOrder | unified_kg_rag/evaluation/assertion_evaluator.py:119-133 | when the loop returns, the order is a permutation, the trial's place in the sequence of distinct draws |
| TrialOrders.SeenGrows | unified_kg_rag/evaluation/assertion_evaluator.py:119-133 | later draws only append: the order of a trial is the same however many are asked for |
| TrialOrders.TrialsShowDistinctOrders | unified_kg_rag/evaluation/assertion_evaluator.py:136-139 | the first t trials show exactly distinct_orders(count, t) different orders |
| TrialOrders.SeenAtMostFactorial | unified_kg_rag/evaluation/assertion_evaluator.py:122-126 | no generator shows more than count! orders, so the reduction modulo count! is needed for the loop to end |
| TrialOrders.FactorialOrders | unified_kg_rag/evaluation/assertion_evaluator.py:119-139 | and there are count! different orders: neither more nor fewer can be shown |
| AssertionTrials.ParseVerdicts | unified_kg_rag/evaluation/assertion_evaluator.py:142-172 | the loop reports the first entry in error, else the numbers without a label, else the labels by number |
| AssertionTrials.ParsesWellFormed | unified_kg_rag/evaluation/assertion_evaluator.py:142-172 | a reply is read exactly when its entries label each of 1..count once with a known label, and each number gets its own entry's label |
| AssertionTrials.FirstErrorInWords | unified_kg_rag/evaluation/assertion_evaluator.py:142-172 | a reply with an entry in error is read as what is wrong with the first one |
| AssertionTrials.Trial | unified_kg_rag/evaluation/assertion_evaluator.py:263-283 | each assertion gets the label of the place it was shown at |
| AssertionTrials.UnshuffledOnce | unified_kg_rag/evaluation/assertion_evaluator.py:279-283 | the writes by index label every assertion, in one way only |
| AssertionTrials.OrderDoesNotMatter | unified_kg_rag/evaluation/assertion_evaluator.py:209-283 | with a judge that goes by the text, number, judge, parse and unshuffle give the same labels for every order |
| AssertionTrials.TextDecides | unified_kg_rag/evaluation/assertion_evaluator.py:175-190 | so over any number of trials each assertion takes exactly its text's label |
| AssertionTrials.AtMostOneLabel | unified_kg_rag/evaluation/assertion_evaluator.py:178-195 | no assertion takes two labels |
| AssertionTrials.RateIsMajorities | unified_kg_rag/evaluation/assertion_evaluator.py:192-206 | a rate counts, among the assertions of the kind, those that more than half the trials give the label |
| AssertionTrials.RecallPlusContradiction | unified_kg_rag/evaluation/assertion_evaluator.py:192-206 | assertion recall and contradiction rate are over the same assertions and add up to at most 1 |
| RankedFiles.RankFiles | unified_kg_rag/evaluation/retrieval_evaluator.py:149-178 | the partition and dedup loops give the match keys of the ranking |
| RankedFiles.RankedNames | unified_kg_rag/evaluation/retrieval_evaluator.py:155-158 | the ranked names are exactly the names some source carries |
| RankedFiles.RankedDiffer | unified_kg_rag/evaluation/retrieval_evaluator.py:155-158 | no name ranks twice |
| RankedFiles.RankedByFirstNaming | unified_kg_rag/evaluation/retrieval_evaluator.py:155-158 | a name ranks before another exactly when it is named first |
| RankedFiles.KeysOfIff | unified_kg_rag/evaluation/retrieval_evaluator.py:149-178 | a file is matched by its name and by its stem, and by nothing else |
| RankedFiles.DerivedRankAfter | unified_kg_rag/evaluation/retrieval_evaluator.py:158-168 | the ranking of the sources that are not derived is a prefix of the whole ranking |
| RankedFiles.DerivedIff | unified_kg_rag/evaluation/retrieval_evaluator.py:158-168 | the sources that rank after are those of the five derived types |
| RankedFiles.RankScores | unified_kg_rag/evaluation/retrieval_evaluator.py:323-344 | the references matched within k and the first matching rank |
| RankedFiles.HitMeansRankWithinK | unified_kg_rag/evaluation/retrieval_evaluator.py:335-342 | hit@k is 1 exactly when recall@k is above 0, exactly when the first match ranks within k |
| RankedFiles.HitMeansMrr | unified_kg_rag/evaluation/retrieval_evaluator.py:338-342 | hit@k is 1 exactly when MRR is at least 1/k |
| RankedFiles.DerivedNeverCrowdOut | unified_kg_rag/evaluation/retrieval_evaluator.py:107-168 | at every k, hit, recall and MRR are never below those of the passages alone |
| RankedFiles.RowsCoverRanking | unified_kg_rag/evaluation/retrieval_evaluator.py:281-297 | a file is ranked exactly when the row of some source type ranks it |
| Slugs.NextSlug | scripts/check_docs.py:197-201 | the counter search ends, at the slug itself or the least free number, and the counters stay on taken numbers |
| Slugs.CounterIsBounded | scripts/check_docs.py:198-200 | base-1 to base-n all taken means n is at most the number of ids: what bounds the search |
| Slugs.Fragments | scripts/check_docs.py:190-203 | each heading adds exactly one new id by the rule without counters; the HTML ids are added to them |
| Slugs.RuleIsUnique | scripts/check_docs.py:194-201 | the rule without counters determines every id, so the counters change none |
| Slugs.SlugsDiffer | scripts/check_docs.py:194-201 | no two headings get one id |
| Slugs.FreshSlugIsKept | scripts/check_docs.py:197-201 | a heading whose slug is not taken keeps it |
| Abba.OrderAt | unified_kg_rag/evaluation/evaluation_manager.py:693-697 | every arm answers every query, at the place of the alternating order |
| Abba.TurnsDiffer | unified_kg_rag/evaluation/evaluation_manager.py:691-697 | no turn comes twice: the order is a permutation of arms by queries |
| Abba.QueriesAreContiguous | unified_kg_rag/evaluation/evaluation_manager.py:636-641 | the answers to one query are next to each other, the queries in order |
| Abba.EitherFirstAsOften | unified_kg_rag/evaluation/evaluation_manager.py:637-641 | of any two arms either is first as often, but for the last query of an odd number |
| Abba.DriftIsShared | unified_kg_rag/evaluation/evaluation_manager.py:632-641 | over an even number of queries all arms answer equally late on average, so a linear drift costs them the same |
| Abba.MeanPlaceIsMiddle | unified_kg_rag/evaluation/evaluation_manager.py:632-641 | over an even number of queries the mean place of every arm's answers is the middle of the session |
| Abba.AnswerArms | unified_kg_rag/evaluation/evaluation_manager.py:682-757 | for any schedule of attempts, raw and record of arm a's query j are those of its own attempts, and its meter is its own usage; an error exactly when the arms' query counts differ |
| Abba.UsageIsConserved | unified_kg_rag/evaluation/evaluation_manager.py:706-735 | the arms' meters add up to what all attempts used |
| SourceResolver.Resolver.Begin | unified_kg_rag/evaluation/source_resolver.py:80-85 | what a call wants, without blanks and repeats, and what of it is not cached |
| SourceResolver.WantedIds | unified_kg_rag/evaluation/source_resolver.py:83-84 | a call wants every id that is not blank, each once, and nothing else |
| SourceResolver.WantedInOrder | unified_kg_rag/evaluation/source_resolver.py:83-84 | in the order first given |
| SourceResolver.Resolver.Collect | unified_kg_rag/evaluation/source_resolver.py:117-137 | what a fetch reports of its hits, and whether it answered |
| SourceResolver.Resolver.Finish | unified_kg_rag/evaluation/source_resolver.py:99-109 | the cache after the fetches and the call's answer |
| SourceResolver.CacheAlwaysAgrees | unified_kg_rag/evaluation/source_resolver.py:80-137 | in every state of every interleaving a cached name is the store's and no call holds a wrong name; a cached absence is true as long as no answered batch was cut by a limit raised again before its call re-read it |
| SourceResolver.NamesAlwaysAgree | unified_kg_rag/evaluation/source_resolver.py:80-137 | whatever happens to the limit, a cached name is the store's and no call holds a wrong name |
| SourceResolver.AbsenceIsCertainIff | unified_kg_rag/evaluation/source_resolver.py:90-104 | a document is without a name in every store the run's events allow exactly when some fetch shows it: it came without one, or not at all in an answered batch within the limit in force |
| SourceResolver.CompleteCallAnswersAll | unified_kg_rag/evaluation/source_resolver.py:80-109 | while no batch of any call was cut by a limit raised again, a call each of whose fetches fit the limit in force, and answered or had nothing to return, answers with exactly the store's names of its ids |
| SourceResolver.CachedCallAnswersAll | unified_kg_rag/evaluation/source_resolver.py:84-109 | so does, while no batch of any call was so cut, a call that finds everything cached |
| SourceResolver.RaisedLimitCachesAbsence | unified_kg_rag/evaluation/source_resolver.py:93-104 | in any run that ends a call with a batch whose limit was raised, a document of the batch that no fetch tells of is cached as absent although the same events allow a store that has it |
| SourceResolver.RaisedLimitRun | unified_kg_rag/evaluation/source_resolver.py:93-104 | a run in which the limit is raised between the fetch and its check caches a present name as absent |
| S3Sync.TargetStaysInside | docker/s3_sync.py:85-91 | a key is refused exactly when it is absolute, names nothing, or climbs; any other lands inside |
| S3Sync.OneNormalNamePerTarget | docker/s3_sync.py:85-91 | of the names that land on a path exactly one has no empty and no . segment: the path itself |
| S3Sync.Mirror.Sync | docker/s3_sync.py:115-163 | the files and exit status after one sync, for any order of its downloads |
| S3Sync.SyncStaysInside | docker/s3_sync.py:115-163 | only wanted paths below the destination are written, only unwanted ones removed |
| S3Sync.FailedKeyKeepsItsFile | docker/s3_sync.py:144-163 | a file whose download failed is neither changed nor removed |
| S3Sync.StaleIsDownloaded | docker/s3_sync.py:94-142 | a listed key is downloaded exactly when its file is missing, of another size whatever its time, or older |
| S3Sync.StaleIsReplaced | docker/s3_sync.py:94-163 | and then its content is there, with its own time stamp, if it alone lands there and the download succeeds |
| S3Sync.MirrorConverges | docker/s3_sync.py:115-163 | after any history in which no two keys ever held share a target, a sync with delete that saw the bucket and returned 0 leaves exactly its keys with their current content |
| S3Sync.NormalKeysConverge | docker/s3_sync.py:70-91 | with the code's own relative names it converges, and a second sync is idle, if every key ever held has a normal name below the prefix |
| S3Sync.NormalKeysAreDistinct | docker/s3_sync.py:70-91 | keys with normal names below the prefix never share a target |
| S3Sync.SecondSyncIsIdle | docker/s3_sync.py:94-142 | a second sync of the same listing has no jobs |
| S3Sync.NeverOlderThanListed | docker/s3_sync.py:94-163 | while the bucket changes under a successful sync, each listed key is left with a version at least as new as the one listed |
| S3Sync.CollidingKeysHaveNoMirror | docker/s3_sync.py:85-91 | keys that share a target and differ in content leave no mirror to converge to |
| S3Sync.SlashesCollide | docker/s3_sync.py:88-91 | an empty segment between two names lands on the same path as none |
| S3Sync.EqualTimesGoUnnoticed | docker/s3_sync.py:94-99 | a version of the same size and time stamp is never downloaded |
| NoriPackage.Association | iac/custom_resources/nori_package.py:129-139 | paging to the first match reads the pages as one list |
| NoriPackage.IsComplete | iac/custom_resources/nori_package.py:87-100 | one poll: its outcome and the domain it leaves |
| NoriPackage.PollAlone | iac/custom_resources/nori_package.py:87-100 | with nothing between its calls, a poll of the event machine is one call of the completion check |
| NoriPackage.WhyAssociate | iac/custom_resources/nori_package.py:159-168 | associate is called only in a poll that listed the domain without the package and then saw it run no change |
| NoriPackage.WhyDissociate | iac/custom_resources/nori_package.py:87-92 | dissociate is called only in a poll that saw the stack in an update's cleanup, and then the package active or its association failed |
| NoriPackage.WhyComplete | iac/custom_resources/nori_package.py:147-151 | a create or update is complete only in a poll that listed the package as active |
| NoriPackage.WhyDeleted | iac/custom_resources/nori_package.py:171-179 | a delete is complete only outside an update's cleanup, or when the package was not listed, or the domain is gone |
| NoriPackage.RaisesIff | iac/custom_resources/nori_package.py:87-100 | a call leads its poll to raise exactly on an error that does not clear by itself (but not on a delete that finds no domain to list), a failed dissociation, or, unless deleting, a failed association |
| NoriPackage.WhyRaised | iac/custom_resources/nori_package.py:87-100 | a poll that raises made such a call |
| NoriPackage.WaitsIff | iac/custom_resources/nori_package.py:147-190 | a poll asks to be polled again exactly on an error that clears by itself, a change under way, or its own request |
| NoriPackage.HandMadeAssociationStands | iac/custom_resources/nori_package.py:147-168 | while the package is associated by whatever hand, no poll that begins meanwhile calls associate |
| NoriPackage.RetainedPackageStands | iac/custom_resources/nori_package.py:56-66 | outside an update's cleanup a delete leaves the package alone |
| NoriPackage.QuietSteps | iac/custom_resources/nori_package.py:147-190 | over every run without failing calls the rank never rises, and while it stays the domain neither starts nor finishes a change the request waits for |
| NoriPackage.RoundMakesProgress | iac/custom_resources/nori_package.py:147-190 | each round lowers the rank or completes the request |
| NoriPackage.AssociationCompletes | iac/custom_resources/nori_package.py:147-168 | with no failing call and nobody else acting, every run of more rounds than the rank of its first domain, each holding a whole poll and a step of the domain in any interleaving, completes a create with the package active, and no poll raises |
| NoriPackage.DissociationCompletes | iac/custom_resources/nori_package.py:171-190 | likewise a delete within its own rank; in a cleanup throughout, with no association left or the domain gone |
| SpotMachine.ExecutionTerminates | iac/stacks/orchestration_stack.py:309-398 | every execution has at most 6 retries + 9 steps, without Spot 7 |
| SpotMachine.LongestRun | iac/stacks/orchestration_stack.py:309-398 | the bounds are reached: for every number of retries and any interruption some execution enters Ingest retries + 1 times, calls RunTask three times each and takes 6 retries + 9 steps |
| SpotMachine.LongestRunWithoutSpot | iac/stacks/orchestration_stack.py:309-327 | without Spot some execution takes 7 steps |
| SpotMachine.TaskCallsAreBounded | iac/stacks/orchestration_stack.py:309-398 | Ingest is entered at most retries + 1 times (once without Spot), RunTask called at most 3 times per entry |
| SpotMachine.InputIsKept | iac/stacks/orchestration_stack.py:294-326 | the source directory and the pipeline id are never altered |
| SpotMachine.RerunNeedsPipelineId | iac/stacks/orchestration_stack.py:340-361 | only a run with a non-empty pipeline id is ever re-run |
| SpotMachine.CaughtFailureIsHandled | iac/stacks/orchestration_stack.py:316-386 | in every execution that ends by itself, a failure past its retries is followed by a re-run exactly when Spot is on, it is States.TaskFailed with a text that holds the stop code or the reason of an interruption, the pipeline id is a text and not empty, and Ingest was entered at most as often as retries are allowed; and else by an attempt to publish that very failure |
| SpotMachine.FailureIsPublished | iac/stacks/orchestration_stack.py:161-188 | PipelineFailed is reached only after the caught error was published |
| SpotMachine.HowItEnds | iac/stacks/orchestration_stack.py:161-188 | an execution ends as complete, failed or unpublished as its last event says, and stopped only from outside |
| SpotMachine.StartIsRetriedIff | iac/stacks/orchestration_stack.py:310-319 | a failure is retried where it happened exactly when it is one to start the task, twice at most |
| SpotMachine.PublishIsRetriedIff | iac/stacks/orchestration_stack.py:175-184 | a failed publish is tried again three times at most, unless it timed out |
| SpotMachine.RerunMeetsNoLiveLease | iac/stacks/orchestration_stack.py:340-377 | with a wait of at least the lease term no re-run starts while an earlier task's lease is live |
| SpotMachine.ShortWaitMeetsLiveLease | iac/stacks/orchestration_stack.py:369-377 | with any shorter wait a run exists in which it does |
| EnvPaths.EnvPath | unified_kg_rag/application/config.py:177-193 | the walk returns the segments exactly when they name a key of the schema |
| EnvPaths.VariableForm | unified_kg_rag/application/config.py:155-167 | a variable's name has the prefix and no lower-case letter |
| EnvPaths.SplitUndoesJoin | unified_kg_rag/application/config.py:165-179 | splitting undoes joining exactly for segments that hold no separator and, but for the last, end in no underscore; joining always undoes splitting |
| EnvPaths.KeyIsSetByItsVariable | unified_kg_rag/application/config.py:149-193 | a key's variable names that key exactly when its path is addressable |
| EnvPaths.KeysShareNoVariable | unified_kg_rag/application/config.py:165-167 | two addressable keys never share a variable |
| EnvPaths.CapitalKeyNamesAnother | unified_kg_rag/application/config.py:165-193 | the variable of any path whose parts split again names the lower-case parts if they are a key, and else nothing |
| EnvPaths.DottedKeyNamesNothing | unified_kg_rag/application/config.py:149-193 | the variable of a mapping key with a dot names no key |

## Left out

- RandomLevel.RandomTestLevel: the generator's rows are taken as all equally likely; its own randomness is not modelled.
- Comparison.FailureNeverRaises: for a run that answered the query once and reported at most one value of the metric on it, as the evaluators do, and values that are not negative.
- FailedAnswers.FailureNeverRaisesMeanDelta: likewise, and while the strategy still scores the metric.
- RowViews.PerQueryRows: the order of strategies, measures and queries is any listing, and a row has no category; sorting is not modelled.
- RowViews.DeltasVsBaseline: the abstention precision delta, which no row states, is not modelled.
- PairedComparison.Compare: without the abstention precision delta, the deltas by category, the summaries and the warnings.
- GateLevel.GateRarelyBlames: for the exact test, 2^n at most the resamples; a null is one whose values may be exchanged at any of the n queries.
- RunsToGate.RunsAreRarelyBlamed: as `GateLevel.GateRarelyBlames`; the exchange is of the per-query means, not of single answers.
- Deltas.DeltaStats: the bootstrap is a parameter, a function of the values and the confidence, and so are the drawn signs.
- Pairwise.CompareRepeats: the differential mode is a judge that may give no agreement; splitting the statements and the tokens of the unique ones are not modelled, nor are the length correlations, the intervals and the agreement pooled over the criteria.
- Pairwise.SummariseLengths: the win rates within a bucket are not modelled.
- Pairwise.MirrorBuckets: the bounds are given with their logarithms undone, as ratios with the tolerance included.
- PairwiseMeaning.DecidedInWords: for the standard mode and results unique per query and repeat.
- RunsAndRates.FailureLeavesTheOthers: for a run that answered the query once.
- PairwiseLaws.SwapAntisymmetry: for the standard mode, a judge whose reply depends on its inputs alone, results unique per query and repeat, and the same question on both sides.
- TrialOrders.TrialOrder: assumes that the generator shows enough distinct orders; that Python's does is not modelled.
- AssertionTrials.Trial: the prompt is the list of numbered texts, not its rendering, and an id or label is given as read from its text.
- RankedFiles.RankFiles: the normalization of names and the stripping of extensions are parameters.
- Abba.AnswerArms: the batch processor is a schedule of attempts, each on one input; concurrency inside one attempt, timings and the fallback's own errors are not modelled.
- Multiplicity.Adjust: the bootstrap interval is a parameter, and a cost delta of a strategy without a metric row, which is never adjusted, is not represented.
- Gates.GateBreaches: a line is its reason and numbers, not its wording; parsing a gate is left out.
- CostGates.CountCosts: the totals, distributions, repeats and cache hits of the cost block are not modelled, and counts of calls and tokens are not negative.
- S3Sync.Mirror.Sync: no file and directory share a name, and removing a file fails only as a counted failure.
- NoriPackage.AssociationCompletes: the domain's own changes succeed, each in at most a given number of its steps; a status the controller does not know is not waited for.
- SpotMachine.RerunMeetsNoLiveLease: the write lease itself is not modelled; a task that ran is assumed to leave its lease live for at most the term.
- SpotMachine.ExecutionTerminates: the machine's timeout, an abort, and an error that a catch of States.ALL does not match are one event that stops the run.
- Slugs.Fragments: slugs and HTML ids are given; the Markdown fences and the slug of a title are left out.
- EnvPaths.KeyIsSetByItsVariable: letter case is that of ASCII, and the schema is a tree of sections, mappings and plain keys.
- The bootstrap and its percentiles, category deltas, decline precision and the warnings of a comparison.
- Maintenance windows of the deployment config: each is settled by one expression.
- Reading, merging and validating config values, unknown keys, and relative paths.
- Prompts, model calls and their retries, tracing, logging, manifests and saving results.
- Indexing, retrieval, graph algorithms and the adapters of the system: not part of this model.
