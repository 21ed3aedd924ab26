// Exchanging two strategies at some of the queries flips the deltas there, and so gives the
// sign-flip test one of its re-flips.
module Exchange {
  import opened Comparison
  import opened Deltas
  import opened Listings
  import SignFlip
  import SignFlipLevel

  // ----- The exchange

  /** Whether the two sides keep their values at q: the sign of its place in the order. */
  ghost predicate Keeps(order: seq<QueryId>, signs: SignFlip.Signs, q: QueryId)
    requires |signs| == |order|
  {
    order == [] || if order[0] == q then signs[0] else Keeps(order[1..], signs[1..], q)
  }

  /** One side's values, exchanged with the other's where the signs say so. */
  ghost function Exchanged(own: map<QueryId, real>, other: map<QueryId, real>, order: seq<QueryId>,
                           signs: SignFlip.Signs): map<QueryId, real>
    requires |signs| == |order|
  {
    map q | q in own :: if q in other && !Keeps(order, signs, q) then other[q] else own[q]
  }

  /** The values of a map in the order listed, 0 where it has none. */
  ghost function Filled(order: seq<QueryId>, m: map<QueryId, real>): (r: seq<real>)
    ensures |r| == |order|
  {
    if order == [] then [] else [if order[0] in m then m[order[0]] else 0.0] + Filled(order[1..], m)
  }

  ghost predicate AreFlipped(m: map<QueryId, real>, flipped: map<QueryId, real>, order: seq<QueryId>,
                             signs: SignFlip.Signs)
    requires |signs| == |order|
  {
    flipped.Keys == m.Keys && forall q :: q in m ==> flipped[q] == if Keeps(order, signs, q) then m[q] else -m[q]
  }

  lemma {:induction false} FlippedFilled(order: seq<QueryId>, signs: SignFlip.Signs, m: map<QueryId, real>,
                                         flipped: map<QueryId, real>)
    requires |signs| == |order| && flipped.Keys == m.Keys
    requires forall i, j :: 0 <= i < j < |order| ==> order[i] != order[j]
    requires forall q :: q in order && q in m ==> flipped[q] == if Keeps(order, signs, q) then m[q] else -m[q]
    ensures Filled(order, flipped) == SignFlip.Flip(signs, Filled(order, m))
  {
    if order != [] {
      forall q | q in order[1..] && q in m
        ensures q != order[0] && flipped[q] == if Keeps(order[1..], signs[1..], q) then m[q] else -m[q]
      {
        var i :| 0 <= i < |order[1..]| && order[1..][i] == q;
        assert order[i + 1] == q;
      }
      FlippedFilled(order[1..], signs[1..], m, flipped);
    }
  }

  lemma ExchangeFlips(base: map<QueryId, real>, other: map<QueryId, real>, order: seq<QueryId>, signs: SignFlip.Signs)
    requires |signs| == |order|
    ensures AreFlipped(Differences(base, other),
                       Differences(Exchanged(base, other, order, signs), Exchanged(other, base, order, signs)), order, signs)
  {
  }

  // ----- The listing of the values does not matter

  /** The queries with a value. */
  ghost function WithValue(m: map<QueryId, real>, v: real): set<QueryId> {
    set q | q in m && m[q] == v
  }

  lemma WithValueStep(m: map<QueryId, real>, q: QueryId, v: real)
    requires q in m
    ensures |WithValue(m, v)| == |WithValue(m - {q}, v)| + if m[q] == v then 1 else 0
  {
    var rest, all := WithValue(m - {q}, v), WithValue(m, v);
    if m[q] == v {
      assert all == rest + {q};
    } else {
      assert all == rest;
    }
  }

  lemma {:induction false} ColumnCounts(order: seq<QueryId>, m: map<QueryId, real>, v: real)
    requires Lists(order, m.Keys)
    ensures multiset(Column(order, m))[v] == |WithValue(m, v)|
  {
    if order == [] {
      assert WithValue(m, v) == {};
    } else {
      var q := order[0];
      var rest := m - {q};
      ListedTail(order, m.Keys);
      assert rest.Keys == m.Keys - {q};
      ColumnCounts(order[1..], rest, v);
      ColumnOf(order[1..], m, rest);
      WithValueStep(m, q, v);
      assert Column(order, m) == [m[q]] + Column(order[1..], m);
    }
  }

  /** Two listings of a map's keys give the same values, each as often. */
  lemma ColumnPermuted(order: seq<QueryId>, other: seq<QueryId>, m: map<QueryId, real>)
    requires Lists(order, m.Keys) && Lists(other, m.Keys)
    ensures multiset(Column(order, m)) == multiset(Column(other, m))
  {
    forall v
      ensures multiset(Column(order, m))[v] == multiset(Column(other, m))[v]
    {
      ColumnCounts(order, m, v);
      ColumnCounts(other, m, v);
    }
  }

  /** The listed queries the map has. */
  ghost function Kept(order: seq<QueryId>, m: map<QueryId, real>): seq<QueryId> {
    if order == [] then [] else (if order[0] in m then [order[0]] else []) + Kept(order[1..], m)
  }

  lemma {:induction false} KeptLists(order: seq<QueryId>, s: set<QueryId>, m: map<QueryId, real>)
    requires Lists(order, s)
    ensures Lists(Kept(order, m), s * m.Keys)
  {
    if order != [] {
      var q := order[0];
      ListedTail(order, s);
      KeptLists(order[1..], s - {q}, m);
      var rest := Kept(order[1..], m);
      if q in m {
        assert Kept(order, m) == [q] + rest;
        assert s * m.Keys == {q} + (s - {q}) * m.Keys;
      } else {
        assert Kept(order, m) == rest && s * m.Keys == (s - {q}) * m.Keys;
      }
    }
  }

  /** Zeros aside, the filled listing holds the kept values. */
  lemma {:induction false} FilledIsKept(order: seq<QueryId>, m: map<QueryId, real>)
    ensures forall q :: q in Kept(order, m) ==> q in m
    ensures SignFlip.NonZero(Filled(order, m)) == SignFlip.NonZero(Column(Kept(order, m), m))
  {
    if order != [] {
      FilledIsKept(order[1..], m);
      assert Filled(order, m)[1..] == Filled(order[1..], m);
      if order[0] in m {
        assert Kept(order, m)[1..] == Kept(order[1..], m);
        assert Column(Kept(order, m), m)[1..] == Column(Kept(order[1..], m), m);
      } else {
        assert Kept(order, m) == Kept(order[1..], m);
        assert Filled(order, m)[0] == 0.0;
      }
    }
  }

  // ----- The p-value of the exchanged delta

  lemma NonZeroTwice(d: seq<real>)
    ensures SignFlip.NonZero(SignFlip.NonZero(d)) == SignFlip.NonZero(d)
  {
    AllNonZero(SignFlip.NonZero(d));
  }

  lemma {:induction false} AllNonZero(d: seq<real>)
    requires forall i :: 0 <= i < |d| ==> d[i] != 0.0
    ensures SignFlip.NonZero(d) == d
  {
    if d != [] {
      AllNonZero(d[1..]);
    }
  }

  /** An exact p-value depends on the non-zero values alone, in any order, whatever rows are drawn. */
  lemma SamePValue(d: seq<real>, e: seq<real>, resamples: nat, draws: seq<SignFlip.Signs>, others: seq<SignFlip.Signs>)
    requires SignFlip.IsExact(d, resamples)
    requires multiset(SignFlip.NonZero(d)) == multiset(SignFlip.NonZero(e))
    ensures SignFlip.IsExact(e, resamples)
    ensures SignFlip.PValue(d, resamples, draws) == SignFlip.PValue(e, resamples, others)
  {
    var x, y := SignFlip.NonZero(d), SignFlip.NonZero(e);
    assert |x| == |multiset(x)| == |multiset(y)| == |y|;
    NonZeroTwice(d);
    NonZeroTwice(e);
    SignFlip.PermutationInvariant(x, y, resamples, draws);
    assert SignFlip.PValue(d, resamples, draws) == SignFlip.PValue(x, resamples, draws);
    assert SignFlip.PValue(e, resamples, others) == SignFlip.PValue(y, resamples, draws);
  }

  lemma {:induction false} PowGrows(m: nat, n: nat)
    requires m <= n
    ensures SignFlip.Pow2(m) <= SignFlip.Pow2(n)
  {
    if m < n {
      PowGrows(m, n - 1);
    }
  }

  /** The values a delta lists are, zeros aside, those of any listing of the queries. */
  lemma ListedValues(d: Delta, order: seq<QueryId>, all: set<QueryId>, settings: Settings)
    requires DrawsEnough(settings) && IsTested(d, settings) && Lists(order, all) && d.perQuery.Keys <= all
    ensures multiset(SignFlip.NonZero(Filled(order, d.perQuery))) == multiset(SignFlip.NonZero(d.values))
  {
    var m, kept := d.perQuery, Kept(order, d.perQuery);
    KeptLists(order, all, m);
    assert all * m.Keys == m.Keys;
    FilledIsKept(order, m);
    ColumnPermuted(kept, d.order, m);
    SignFlip.NonZeroFilters(Column(kept, m));
    SignFlip.NonZeroFilters(d.values);
  }

  /**
   * With the two sides exchanged by the k-th choice of signs, the delta's p-value is the one of the
   * k-th re-flip of the observed differences.
   */
  lemma ExchangedPValue(base: map<QueryId, real>, other: map<QueryId, real>, order: seq<QueryId>, all: set<QueryId>,
                        k: nat, settings: Settings, d: Delta)
    requires DrawsEnough(settings) && Lists(order, all) && base.Keys * other.Keys <= all
    requires k < SignFlip.Pow2(|order|) <= settings.resamples
    requires var signs := SignFlip.Pattern(k, |order|);
      IsDelta(d, Exchanged(base, other, order, signs), Exchanged(other, base, order, signs))
    requires IsTested(d, settings)
    ensures var column := Filled(order, Differences(base, other));
      && SignFlip.IsExact(column, settings.resamples)
      && d.pValue == SignFlipLevel.ReflipPValues(column, settings.resamples, [], SignFlip.Pow2(|order|))[k]
  {
    var signs, m := SignFlip.Pattern(k, |order|), Differences(base, other);
    var column, flipped := Filled(order, m), Filled(order, d.perQuery);
    ExchangeFlips(base, other, order, signs);
    FlippedFilled(order, signs, m, d.perQuery);
    PowGrows(|SignFlip.NonZero(column)|, |order|);
    SignFlipLevel.ReflipAt(column, settings.resamples, [], SignFlip.Pow2(|order|), k);
    ListedValues(d, order, all, settings);
    SamePValue(flipped, d.values, settings.resamples, [], settings.draws(|SignFlip.NonZero(d.values)|));
  }
}
