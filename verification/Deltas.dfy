// The paired deltas of a comparison, for metrics and for cost measures, and the row view
// that states the same values query by query.
module Deltas {
  import opened Reals
  import opened Options
  import opened Comparison
  import opened Costs
  import opened Listings
  import SignFlip

  // ----- Totals over the queries of a map

  /** The sum of a map's values. */
  ghost function Total(m: map<QueryId, real>): real {
    if m == map[] then 0.0 else
      var q :| q in m;
      m[q] + Total(m - {q})
  }

  lemma {:induction false} TotalSplits(m: map<QueryId, real>, q: QueryId)
    requires q in m
    ensures Total(m) == m[q] + Total(m - {q})
  {
    var p :| p in m && Total(m) == m[p] + Total(m - {p});
    if p != q {
      TotalSplits(m - {p}, q);
      TotalSplits(m - {q}, p);
      assert m - {p} - {q} == m - {q} - {p};
    }
  }

  /** The values of a map in the order listed. */
  function Column(order: seq<QueryId>, m: map<QueryId, real>): (r: seq<real>)
    requires forall q :: q in order ==> q in m
    ensures |r| == |order|
  {
    if order == [] then [] else [m[order[0]]] + Column(order[1..], m)
  }

  lemma {:induction false} ColumnOf(order: seq<QueryId>, m: map<QueryId, real>, m': map<QueryId, real>)
    requires forall q :: q in order ==> q in m && q in m' && m[q] == m'[q]
    ensures Column(order, m) == Column(order, m')
  {
    if order != [] {
      ColumnOf(order[1..], m, m');
    }
  }

  /** How many entries have the sign of `sign` (1, 0 or -1). */
  function CountSign(s: seq<real>, sign: int): nat {
    if s == [] then 0 else (if SignOf(s[0]) == sign then 1 else 0) + CountSign(s[1..], sign)
  }

  function SignOf(x: real): int {
    if x > 0.0 then 1 else if x == 0.0 then 0 else -1
  }

  /** The queries whose value has the sign. */
  ghost function WithSign(m: map<QueryId, real>, sign: int): set<QueryId> {
    set q | q in m && SignOf(m[q]) == sign
  }

  /** Totals and counts over a listing are those over the map. */
  lemma {:induction false} ColumnTotal(order: seq<QueryId>, m: map<QueryId, real>)
    requires Lists(order, m.Keys)
    ensures Sum(Column(order, m)) == Total(m)
  {
    if order == [] {
      assert m.Keys == {};
    } else {
      var q := order[0];
      ListedTail(order, m.Keys);
      assert (m - {q}).Keys == m.Keys - {q};
      ColumnTotal(order[1..], m - {q});
      ColumnOf(order[1..], m, m - {q});
      TotalSplits(m, q);
    }
  }

  lemma {:induction false} ColumnSigns(order: seq<QueryId>, m: map<QueryId, real>, sign: int)
    requires Lists(order, m.Keys)
    ensures CountSign(Column(order, m), sign) == |WithSign(m, sign)|
  {
    if order == [] {
      assert m.Keys == {} && WithSign(m, sign) == {};
    } else {
      var q := order[0];
      var rest := m - {q};
      ListedTail(order, m.Keys);
      assert rest.Keys == m.Keys - {q};
      ColumnSigns(order[1..], rest, sign);
      ColumnOf(order[1..], m, rest);
      WithSignStep(m, q, sign);
    }
  }

  lemma WithSignStep(m: map<QueryId, real>, q: QueryId, sign: int)
    requires q in m
    ensures |WithSign(m, sign)| == |WithSign(m - {q}, sign)| + if SignOf(m[q]) == sign then 1 else 0
  {
    var rest, all := WithSign(m - {q}, sign), WithSign(m, sign);
    if SignOf(m[q]) == sign {
      assert all == rest + {q};
    } else {
      assert all == rest;
    }
  }

  lemma {:induction false} SignsPartition(s: seq<real>)
    ensures CountSign(s, 1) + CountSign(s, 0) + CountSign(s, -1) == |s|
  {
    if s != [] {
      SignsPartition(s[1..]);
    }
  }

  // ----- A paired delta

  /** The percentile interval of the mean of paired values at a confidence. */
  type Bootstrap = (seq<real>, real) -> (real, real)

  /** The rows of signs the sign-flip test draws for so many deltas. */
  type SignDraws = nat -> seq<SignFlip.Signs>

  /** What a comparison's statistics are computed with. */
  datatype Settings = Settings(resamples: nat, confidence: real, bootstrap: Bootstrap, draws: SignDraws)

  ghost predicate DrawsEnough(settings: Settings) {
    forall n :: |settings.draws(n)| == settings.resamples && SignFlip.AllOfLength(settings.draws(n), n)
  }

  /** `order` and `values` are the per-query values as listed: its keys, each once, and their values. */
  datatype Delta = Delta(pairs: nat, unpaired: nat, meanDelta: real, wins: nat, ties: nat, losses: nat,
                         perQuery: map<QueryId, real>, order: seq<QueryId>, values: seq<real>,
                         ciLow: real, ciHigh: real, pValue: real)

  /** Each shared query's value of `other` over that of `base`. */
  function Differences(base: map<QueryId, real>, other: map<QueryId, real>): map<QueryId, real> {
    map q | q in base.Keys * other.Keys :: other[q] - base[q]
  }

  /** The queries only one side scored. */
  function OneSided(base: map<QueryId, real>, other: map<QueryId, real>): set<QueryId> {
    (base.Keys - other.Keys) + (other.Keys - base.Keys)
  }

  ghost predicate IsDelta(d: Delta, base: map<QueryId, real>, other: map<QueryId, real>) {
    && d.perQuery == Differences(base, other) != map[]
    && d.pairs == |d.perQuery| && d.unpaired == |OneSided(base, other)|
    && d.meanDelta == Total(d.perQuery) / |d.perQuery| as real
    && d.wins == |WithSign(d.perQuery, 1)|
    && d.ties == |WithSign(d.perQuery, 0)|
    && d.losses == |WithSign(d.perQuery, -1)|
    && d.wins + d.ties + d.losses == d.pairs
  }

  /** The sign-flip p-value of paired values. */
  ghost function PValueOf(values: seq<real>, settings: Settings): real
    requires DrawsEnough(settings)
  {
    SignFlip.PValue(values, settings.resamples, settings.draws(|SignFlip.NonZero(values)|))
  }

  /** The delta's listed values are its per-query values, and its interval and p-value are theirs. */
  ghost predicate IsTested(d: Delta, settings: Settings)
    requires DrawsEnough(settings)
  {
    && Lists(d.order, d.perQuery.Keys) && d.values == Column(d.order, d.perQuery)
    && (d.ciLow, d.ciHigh) == settings.bootstrap(d.values, settings.confidence)
    && d.pValue == PValueOf(d.values, settings)
  }

  /** The paired delta over the queries both sides scored; none when they share none. */
  method DeltaStats(base: map<QueryId, real>, other: map<QueryId, real>, settings: Settings) returns (d: Option<Delta>)
    requires DrawsEnough(settings)
    ensures d.None? <==> base.Keys * other.Keys == {}
    ensures d.Some? ==> IsDelta(d.value, base, other) && IsTested(d.value, settings)
  {
    var perQuery := Differences(base, other);
    if perQuery == map[] {
      assert perQuery.Keys == base.Keys * other.Keys == {};
      return None;
    }
    var paired := Listed(perQuery.Keys);
    var diff := Column(paired, perQuery);
    ListedSize(paired, perQuery.Keys);
    ColumnTotal(paired, perQuery);
    ColumnSigns(paired, perQuery, 1);
    ColumnSigns(paired, perQuery, 0);
    ColumnSigns(paired, perQuery, -1);
    SignsPartition(diff);
    assert |perQuery.Keys| == |perQuery|;
    var q :| q in perQuery;
    var interval := settings.bootstrap(diff, settings.confidence);
    var pValue := SignFlip.SignFlipPValue(diff, settings.resamples, settings.draws(|SignFlip.NonZero(diff)|));
    d := Some(Delta(|paired|, |OneSided(base, other)|, Sum(diff) / |diff| as real,
                    CountSign(diff, 1), CountSign(diff, 0), CountSign(diff, -1), perQuery, paired, diff,
                    interval.0, interval.1, pValue));
  }

  // ----- The cost measures' means

  function ValueOf(measures: map<Key, real>, key: Key): seq<real> {
    if key in measures then [measures[key]] else []
  }

  function MeasureValues(results: seq<Answer>, prices: Prices, key: Key, q: QueryId): seq<real> {
    if results == [] then [] else
      var n := |results| - 1;
      MeasureValues(results[..n], prices, key, q)
      + if results[n].query == q then ValueOf(AnswerMeasures(results[n], prices), key) else []
  }

  /** Every value of a cost measure for a query over a strategy's runs. */
  function CostValues(runs: seq<Run>, prices: Prices, key: Key, q: QueryId): seq<real> {
    if runs == [] then [] else
      var n := |runs| - 1;
      CostValues(runs[..n], prices, key, q) + MeasureValues(runs[n].results, prices, key, q)
  }

  ghost predicate IsCostMeans(m: Table<real>, runs: seq<Run>, prices: Prices) {
    && (forall k :: k in m ==> m[k] != map[])
    && (forall k, p :: (k in m && p in m[k]) <==> CostValues(runs, prices, k, p) != [])
    && (forall k, p :: k in m && p in m[k] ==> m[k][p] == Mean(CostValues(runs, prices, k, p)))
  }

  function MeasuresAdded(t: Table<seq<real>>, measures: map<Key, real>, keys: set<Key>, q: QueryId): Table<seq<real>>
    requires keys <= measures.Keys
  {
    map key | key in t.Keys + keys ::
      if key in keys then Row(t, key)[q := Lookup(t, key, q) + [measures[key]]] else t[key]
  }

  method AddMeasures(t: Table<seq<real>>, measures: map<Key, real>, q: QueryId) returns (r: Table<seq<real>>)
    ensures r == MeasuresAdded(t, measures, measures.Keys, q)
  {
    r := t;
    var left := measures.Keys;
    while left != {}
      invariant left <= measures.Keys && r == MeasuresAdded(t, measures, measures.Keys - left, q)
    {
      var key :| key in left;
      r := Append(r, key, q, measures[key]);
      left := left - {key};
    }
    assert measures.Keys - left == measures.Keys;
  }

  function AnswersMeasured(t: Table<seq<real>>, results: seq<Answer>, prices: Prices): Table<seq<real>> {
    if results == [] then t else
      var n := |results| - 1;
      var measures := AnswerMeasures(results[n], prices);
      MeasuresAdded(AnswersMeasured(t, results[..n], prices), measures, measures.Keys, results[n].query)
  }

  function RunsMeasured(runs: seq<Run>, prices: Prices): Table<seq<real>> {
    if runs == [] then map[] else
      var n := |runs| - 1;
      AnswersMeasured(RunsMeasured(runs[..n], prices), runs[n].results, prices)
  }

  lemma MeasuresCompact(t: Table<seq<real>>, measures: map<Key, real>, q: QueryId)
    requires Compact(t)
    ensures Compact(MeasuresAdded(t, measures, measures.Keys, q))
  {
    forall key | key in measures
      ensures MeasuresAdded(t, measures, measures.Keys, q)[key] != map[]
    {
      assert q in MeasuresAdded(t, measures, measures.Keys, q)[key];
    }
  }

  lemma MeasuresLookup(t: Table<seq<real>>, measures: map<Key, real>, q: QueryId, k: Key, p: QueryId)
    ensures Lookup(MeasuresAdded(t, measures, measures.Keys, q), k, p)
         == Lookup(t, k, p) + if p == q then ValueOf(measures, k) else []
  {
  }

  lemma {:induction false} AnswersLookup(t: Table<seq<real>>, results: seq<Answer>, prices: Prices, k: Key, p: QueryId)
    requires Compact(t)
    ensures Compact(AnswersMeasured(t, results, prices))
    ensures Lookup(AnswersMeasured(t, results, prices), k, p) == Lookup(t, k, p) + MeasureValues(results, prices, k, p)
  {
    if results != [] {
      var n := |results| - 1;
      AnswersLookup(t, results[..n], prices, k, p);
      var before, measures := AnswersMeasured(t, results[..n], prices), AnswerMeasures(results[n], prices);
      MeasuresCompact(before, measures, results[n].query);
      MeasuresLookup(before, measures, results[n].query, k, p);
    }
  }

  lemma {:induction false} RunsMeasuredLookup(runs: seq<Run>, prices: Prices, k: Key, p: QueryId)
    ensures Compact(RunsMeasured(runs, prices))
    ensures Lookup(RunsMeasured(runs, prices), k, p) == CostValues(runs, prices, k, p)
  {
    if runs != [] {
      var n := |runs| - 1;
      RunsMeasuredLookup(runs[..n], prices, k, p);
      AnswersLookup(RunsMeasured(runs[..n], prices), runs[n].results, prices, k, p);
    }
  }

  /** Per cost measure and query, the mean over every answer that has the measure. */
  method CostMeans(runs: seq<Run>, prices: Prices) returns (means: Table<real>)
    ensures IsCostMeans(means, runs, prices)
  {
    var byQuery: Table<seq<real>> := map[];
    for i := 0 to |runs|
      invariant byQuery == RunsMeasured(runs[..i], prices)
    {
      var results := runs[i].results;
      ghost var start := byQuery;
      for j := 0 to |results|
        invariant byQuery == AnswersMeasured(start, results[..j], prices)
      {
        byQuery := AddMeasures(byQuery, AnswerMeasures(results[j], prices), results[j].query);
        assert results[..j + 1][..j] == results[..j];
      }
      assert results[..|results|] == results && runs[..i + 1][..i] == runs[..i];
    }
    assert runs[..|runs|] == runs;
    means := map key | key in byQuery :: map q | q in byQuery[key] && byQuery[key][q] != [] :: Mean(byQuery[key][q]);
    forall k, p
      ensures Compact(byQuery) && Lookup(byQuery, k, p) == CostValues(runs, prices, k, p)
    {
      RunsMeasuredLookup(runs, prices, k, p);
    }
    RunsMeasuredLookup(runs, prices, ABSTENTION_RECALL, "");
    forall k | k in means
      ensures means[k] != map[]
    {
      assert byQuery[k] != map[];
      var q :| q in byQuery[k];
      assert q in means[k];
    }
  }

  lemma SameTable(m: Table<real>, m': Table<real>)
    requires (forall k :: k in m ==> m[k] != map[]) && (forall k :: k in m' ==> m'[k] != map[])
    requires forall k, p :: (k in m && p in m[k]) <==> (k in m' && p in m'[k])
    requires forall k, p :: k in m && p in m[k] && k in m' && p in m'[k] ==> m[k][p] == m'[k][p]
    ensures m == m'
  {
    forall k
      ensures k in m <==> k in m'
    {
      if k in m {
        var p :| p in m[k];
        assert k in m' && p in m'[k];
      }
      if k in m' {
        var p :| p in m'[k];
        assert k in m && p in m[k];
      }
    }
    forall k | k in m
      ensures m[k] == m'[k]
    {
      assert forall p :: p in m[k] <==> p in m'[k];
    }
  }

  /** Means are determined by the values: recomputing them gives the same table. */
  lemma MeansUnique(m: Table<real>, m': Table<real>, runs: seq<Run>, failed: map<QueryId, set<Key>>)
    requires IsMeansOfRuns(m, runs, failed) && IsMeansOfRuns(m', runs, failed)
    ensures m == m'
  {
    SameTable(m, m');
  }

  lemma CostMeansUnique(m: Table<real>, m': Table<real>, runs: seq<Run>, prices: Prices)
    requires IsCostMeans(m, runs, prices) && IsCostMeans(m', runs, prices)
    ensures m == m'
  {
    SameTable(m, m');
  }
}
