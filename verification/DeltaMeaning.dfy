// What a paired delta says of the two sides' values: who is above whom on how many queries, and by
// how much on average.
module DeltaMeaning {
  import opened Comparison
  import opened Deltas
  import opened Reals

  /** The queries both sides scored. */
  ghost function Shared(base: map<QueryId, real>, other: map<QueryId, real>): set<QueryId> {
    set q | q in base && q in other
  }

  ghost function Above(base: map<QueryId, real>, other: map<QueryId, real>): set<QueryId> {
    set q | q in base && q in other && other[q] > base[q]
  }

  ghost function Level(base: map<QueryId, real>, other: map<QueryId, real>): set<QueryId> {
    set q | q in base && q in other && other[q] == base[q]
  }

  lemma SidesOfSigns(base: map<QueryId, real>, other: map<QueryId, real>)
    ensures WithSign(Differences(base, other), 1) == Above(base, other)
    ensures WithSign(Differences(base, other), 0) == Level(base, other)
    ensures WithSign(Differences(base, other), -1) == Above(other, base)
  {
  }

  lemma KeysOfDifferences(base: map<QueryId, real>, other: map<QueryId, real>)
    ensures Differences(base, other).Keys == Shared(base, other)
    ensures |Differences(base, other)| == |Shared(base, other)|
  {
    var m := Differences(base, other);
    assert m.Keys == base.Keys * other.Keys == Shared(base, other);
    assert |m.Keys| == |m|;
  }

  lemma OneSidedIsTheRest(base: map<QueryId, real>, other: map<QueryId, real>)
    ensures OneSided(base, other) == (base.Keys + other.Keys) - Shared(base, other)
  {
    assert Shared(base, other) == base.Keys * other.Keys;
  }

  /** Wins, ties and losses are the queries on which the strategy is above, level with and below the baseline. */
  lemma WinsAreAbove(d: Delta, base: map<QueryId, real>, other: map<QueryId, real>)
    requires IsDelta(d, base, other)
    ensures d.pairs == |Shared(base, other)|
    ensures d.wins == |Above(base, other)| && d.ties == |Level(base, other)| && d.losses == |Above(other, base)|
    ensures d.unpaired == |(base.Keys + other.Keys) - Shared(base, other)|
  {
    SidesOfSigns(base, other);
    KeysOfDifferences(base, other);
    OneSidedIsTheRest(base, other);
  }

  // ----- The mean delta

  lemma OneFewer(m: map<QueryId, real>, q: QueryId)
    requires q in m
    ensures |m - {q}| + 1 == |m|
  {
    assert (m - {q}).Keys == m.Keys - {q};
    assert |(m - {q}).Keys| == |m - {q}| && |m.Keys| == |m|;
  }

  lemma {:induction false} TotalWithin(m: map<QueryId, real>, low: real, high: real)
    requires forall q :: q in m ==> low <= m[q] <= high
    ensures Times(|m|, low) <= Total(m) <= Times(|m|, high)
  {
    if m != map[] {
      var q :| q in m;
      TotalSplits(m, q);
      TotalWithin(m - {q}, low, high);
      OneFewer(m, q);
    }
  }

  lemma Divided(low: real, total: real, high: real, n: nat)
    requires n > 0 && Times(n, low) <= total <= Times(n, high)
    ensures low <= total / n as real <= high
  {
    TimesIsProduct(n, low);
    TimesIsProduct(n, high);
    DividedWithin(low, total / n as real, high, total, n as real);
  }

  lemma DividedWithin(low: real, mean: real, high: real, total: real, n: real)
    requires n > 0.0 && mean == total / n && n * low <= total <= n * high
    ensures low <= mean <= high
  {
    assert mean * n == total;
    assert n * (mean - low) >= 0.0 && n * (high - mean) >= 0.0;
  }

  /** The mean delta is no lower than the least difference and no higher than the greatest. */
  lemma MeanWithin(d: Delta, base: map<QueryId, real>, other: map<QueryId, real>, low: real, high: real)
    requires IsDelta(d, base, other)
    requires forall q :: q in Shared(base, other) ==> low <= other[q] - base[q] <= high
    ensures low <= d.meanDelta <= high
  {
    forall q | q in d.perQuery
      ensures low <= d.perQuery[q] <= high
    {
      assert q in Shared(base, other);
    }
    TotalWithin(d.perQuery, low, high);
    SomePairs(d, base, other);
    Divided(low, Total(d.perQuery), high, |d.perQuery|);
  }

  lemma SomePairs(d: Delta, base: map<QueryId, real>, other: map<QueryId, real>)
    requires IsDelta(d, base, other)
    ensures |d.perQuery| > 0
  {
    var q :| q in d.perQuery;
    OneFewer(d.perQuery, q);
  }

  lemma {:induction false} Extremes(m: map<QueryId, real>) returns (low: QueryId, high: QueryId)
    requires m != map[]
    ensures low in m && high in m && forall q :: q in m ==> m[low] <= m[q] <= m[high]
  {
    var p :| p in m;
    low, high := p, p;
    if m - {p} != map[] {
      var l, h := Extremes(m - {p});
      low, high := if m[p] <= m[l] then p else l, if m[p] >= m[h] then p else h;
      forall q | q in m
        ensures m[low] <= m[q] <= m[high]
      {
        assert q == p || q in m - {p};
      }
    } else {
      forall q | q in m
        ensures q == p
      {
        assert q == p || q in m - {p};
      }
    }
  }

  /** A strategy above the baseline on every shared query wins every pair, by a positive mean delta. */
  lemma AboveEverywhere(d: Delta, base: map<QueryId, real>, other: map<QueryId, real>)
    requires IsDelta(d, base, other) && forall q :: q in Shared(base, other) ==> other[q] > base[q]
    ensures d.wins == d.pairs && d.ties == 0 && d.losses == 0 && d.meanDelta > 0.0
  {
    WinsAreAbove(d, base, other);
    assert Above(base, other) == Shared(base, other) && Level(base, other) == {} && Above(other, base) == {};
    var low, high := Extremes(d.perQuery);
    forall q | q in Shared(base, other)
      ensures q in d.perQuery && d.perQuery[q] == other[q] - base[q]
    {
    }
    assert low in Shared(base, other);
    MeanWithin(d, base, other, d.perQuery[low], d.perQuery[high]);
  }

  // ----- Exchanging the two sides

  lemma {:induction false} TotalNegated(m: map<QueryId, real>, n: map<QueryId, real>)
    requires m.Keys == n.Keys && forall q :: q in m ==> n[q] == -m[q]
    ensures Total(n) == -Total(m)
  {
    if m != map[] {
      var q :| q in m;
      TotalSplits(m, q);
      TotalSplits(n, q);
      TotalNegated(m - {q}, n - {q});
    } else {
      assert n == map[];
    }
  }

  lemma MinusOver(total: real, n: real)
    requires n > 0.0
    ensures (-total) / n == -(total / n)
  {
  }

  lemma SameSides(base: map<QueryId, real>, other: map<QueryId, real>)
    ensures Shared(base, other) == Shared(other, base) && Level(base, other) == Level(other, base)
    ensures base.Keys + other.Keys == other.Keys + base.Keys
  {
  }

  lemma MeanOtherWayRound(d: Delta, e: Delta, base: map<QueryId, real>, other: map<QueryId, real>)
    requires IsDelta(d, base, other) && IsDelta(e, other, base)
    ensures e.meanDelta == -d.meanDelta
  {
    SameSides(base, other);
    KeysOfDifferences(base, other);
    KeysOfDifferences(other, base);
    SomePairs(d, base, other);
    TotalNegated(d.perQuery, e.perQuery);
    MinusOver(Total(d.perQuery), |d.perQuery| as real);
  }

  /** Comparing the other way round exchanges wins and losses, keeps the pairs, and negates the mean delta. */
  lemma OtherWayRound(d: Delta, e: Delta, base: map<QueryId, real>, other: map<QueryId, real>)
    requires IsDelta(d, base, other) && IsDelta(e, other, base)
    ensures e.pairs == d.pairs && e.unpaired == d.unpaired
    ensures e.wins == d.losses && e.ties == d.ties && e.losses == d.wins && e.meanDelta == -d.meanDelta
  {
    WinsAreAbove(d, base, other);
    WinsAreAbove(e, other, base);
    SameSides(base, other);
    MeanOtherWayRound(d, e, base, other);
  }
}
