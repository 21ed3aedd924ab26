// What a sign-flip p-value says, in numbers of sign rows: which rows it counts as reaching the
// observed sum, what its tolerance for rounding changes, and when it is as small as it can be.
module SignFlipMeaning {
  import opened Reals
  import opened SignFlip

  // ----- What the tolerance changes

  /** A row of signs that falls short of the observed sum by no more than the tolerance for rounding. */
  ghost predicate NearMiss(s: Signs, d: seq<real>)
    requires |s| == |d|
  {
    var observed, size := Abs(Sum(d)), AbsSum(d);
    observed - 0.000000001 * (if size > 1.0 then size else 1.0) <= Abs(Dot(s, d)) < observed
  }

  /** The sum under a row of signs lies between the two thresholds. */
  ghost predicate Between(s: Signs, d: seq<real>, offset: real, low: real, high: real)
    requires |s| == |d|
  {
    low <= Abs(offset + Dot(s, d)) < high
  }

  ghost predicate NoneBetween(d: seq<real>, offset: real, low: real, high: real) {
    forall s: Signs :: |s| == |d| ==> !Between(s, d, offset, low, high)
  }

  lemma {:induction false} HitsLower(d: seq<real>, offset: real, low: real, high: real)
    requires low <= high
    ensures Hits(d, offset, low) >= Hits(d, offset, high)
  {
    if d != [] {
      HitsLower(d[1..], offset - d[0], low, high);
      HitsLower(d[1..], offset + d[0], low, high);
    }
  }

  lemma {:induction false} BetweenCounts(s: Signs, d: seq<real>, offset: real, low: real, high: real)
    requires |s| == |d| && Between(s, d, offset, low, high)
    ensures Hits(d, offset, low) > Hits(d, offset, high)
  {
    if d != [] {
      HitsLower(d[1..], offset - d[0], low, high);
      HitsLower(d[1..], offset + d[0], low, high);
      BetweenCounts(s[1..], d[1..], offset + Signed(s[0], d[0]), low, high);
    }
  }

  lemma {:induction false} CountedBetween(d: seq<real>, offset: real, low: real, high: real) returns (s: Signs)
    requires low <= high && Hits(d, offset, low) != Hits(d, offset, high)
    ensures |s| == |d| && Between(s, d, offset, low, high)
  {
    if d == [] {
      s := [];
    } else {
      var sign := Hits(d[1..], offset - d[0], low) == Hits(d[1..], offset - d[0], high);
      var rest := CountedBetween(d[1..], offset + Signed(sign, d[0]), low, high);
      s := [sign] + rest;
      assert s[1..] == rest;
    }
  }

  /** Lowering the threshold counts more sign rows exactly when some row lies between the two. */
  lemma HitsBetween(d: seq<real>, offset: real, low: real, high: real)
    requires low <= high
    ensures Hits(d, offset, low) == Hits(d, offset, high) <==> NoneBetween(d, offset, low, high)
  {
    if Hits(d, offset, low) != Hits(d, offset, high) {
      var s := CountedBetween(d, offset, low, high);
    }
    forall s: Signs | |s| == |d| && Between(s, d, offset, low, high)
      ensures Hits(d, offset, low) != Hits(d, offset, high)
    {
      BetweenCounts(s, d, offset, low, high);
    }
  }

  lemma {:induction false} CountBetween(s: seq<real>, low: real, high: real)
    requires low <= high
    ensures CountAtLeast(s, low) >= CountAtLeast(s, high)
    ensures CountAtLeast(s, low) == CountAtLeast(s, high) <==> forall i :: 0 <= i < |s| ==> !(low <= s[i] < high)
  {
    if s != [] {
      CountBetween(s[1..], low, high);
      assert forall i :: 0 < i < |s| ==> s[i] == s[1..][i - 1];
      assert forall i :: 0 <= i < |s[1..]| ==> s[1..][i] == s[i + 1];
    }
  }

  lemma ShareInjective(a: nat, b: nat, whole: nat)
    requires whole > 0
    ensures Share(a, whole) == Share(b, whole) <==> a == b
  {
    var x, y := a as real / whole as real, b as real / whole as real;
    assert a as real == x * whole as real && b as real == y * whole as real;
  }

  /**
   * An exact p-value is the share of all choices of signs that bring the sum to at least the observed
   * one, exactly when no choice is a near miss.
   */
  lemma ExactCountsReaching(d: seq<real>, resamples: nat, draws: seq<Signs>)
    requires IsExact(d, resamples)
    ensures PValue(d, resamples, draws) == Share(Hits(d, 0.0, Abs(Sum(d))), Pow2(|d|))
            <==> forall s: Signs :: |s| == |d| ==> !NearMiss(s, d)
  {
    ExactIsShare(d, resamples, draws);
    var low, high := Threshold(d), Abs(Sum(d));
    HitsBetween(d, 0.0, low, high);
    forall s: Signs | |s| == |d|
      ensures NearMiss(s, d) <==> Between(s, d, 0.0, low, high)
    {
    }
    ShareInjective(Hits(d, 0.0, low), Hits(d, 0.0, high), Pow2(|d|));
  }

  lemma {:induction false} DrawSumAt(draws: seq<Signs>, d: seq<real>, i: nat)
    requires AllOfLength(draws, |d|) && i < |draws|
    ensures DrawSums(draws, d)[i] == Abs(Dot(draws[i], d))
  {
    if i > 0 {
      DrawSumAt(draws[1..], d, i - 1);
    }
  }

  ghost predicate NoDrawMisses(draws: seq<Signs>, d: seq<real>)
    requires AllOfLength(draws, |d|)
  {
    forall i :: 0 <= i < |draws| ==> !NearMiss(draws[i], d)
  }

  lemma DrawsBetween(draws: seq<Signs>, d: seq<real>)
    requires AllOfLength(draws, |d|)
    ensures var sums := DrawSums(draws, d);
      CountAtLeast(sums, Threshold(d)) == CountAtLeast(sums, Abs(Sum(d))) <==> NoDrawMisses(draws, d)
  {
    var sums, low, high := DrawSums(draws, d), Threshold(d), Abs(Sum(d));
    CountBetween(sums, low, high);
    forall i | 0 <= i < |draws|
      ensures NearMiss(draws[i], d) <==> low <= sums[i] < high
    {
      DrawSumAt(draws, d, i);
    }
  }

  /**
   * A random p-value is one more than the drawn rows that reach the observed sum, over one more than
   * all drawn, exactly when no drawn row is a near miss.
   */
  lemma RandomCountsReaching(deltas: seq<real>, resamples: nat, draws: seq<Signs>)
    requires DrawsFit(deltas, resamples, draws) && !IsExact(deltas, resamples)
    ensures var d := NonZero(deltas);
      PValue(deltas, resamples, draws) == Share(1 + CountAtLeast(DrawSums(draws, d), Abs(Sum(d))), 1 + resamples)
      <==> NoDrawMisses(draws, d)
  {
    var d := NonZero(deltas);
    var sums := DrawSums(draws, d);
    DrawsBetween(draws, d);
    if d != [] {
      ShareInjective(1 + CountAtLeast(sums, Threshold(d)), 1 + CountAtLeast(sums, Abs(Sum(d))), 1 + resamples);
    }
  }

  // ----- When a p-value is the smallest there is

  /** How many sign rows bring the sum itself to at least `c`. */
  ghost function Reach(d: seq<real>, c: real): nat {
    if d == [] then (if 0.0 >= c then 1 else 0) else Reach(d[1..], c + d[0]) + Reach(d[1..], c - d[0])
  }

  lemma {:induction false} HitsBothWays(d: seq<real>, offset: real, c: real)
    requires c > 0.0
    ensures Hits(d, offset, c) == Reach(d, c - offset) + Reach(d, c + offset)
  {
    if d != [] {
      HitsBothWays(d[1..], offset - d[0], c);
      HitsBothWays(d[1..], offset + d[0], c);
      assert c - (offset - d[0]) == c - offset + d[0] && c + (offset - d[0]) == c + offset - d[0];
      assert c - (offset + d[0]) == c - offset - d[0] && c + (offset + d[0]) == c + offset + d[0];
    }
  }

  lemma {:induction false} HitsAlways(d: seq<real>, offset: real, c: real)
    requires c <= 0.0
    ensures Hits(d, offset, c) == Pow2(|d|)
  {
    if d != [] {
      HitsAlways(d[1..], offset - d[0], c);
      HitsAlways(d[1..], offset + d[0], c);
    }
  }

  ghost function Magnitudes(d: seq<real>): (r: seq<real>)
    ensures |r| == |d| && forall i :: 0 <= i < |d| ==> r[i] == Abs(d[i])
  {
    if d == [] then [] else [Abs(d[0])] + Magnitudes(d[1..])
  }

  lemma {:induction false} MagnitudesHit(d: seq<real>, offset: real, c: real)
    ensures Hits(Magnitudes(d), offset, c) == Hits(d, offset, c) && Sum(Magnitudes(d)) == AbsSum(d)
  {
    if d != [] {
      MagnitudesHit(d[1..], offset - d[0], c);
      MagnitudesHit(d[1..], offset + d[0], c);
      assert Magnitudes(d)[1..] == Magnitudes(d[1..]);
    }
  }

  ghost predicate Positive(e: seq<real>) {
    forall i :: 0 <= i < |e| ==> e[i] > 0.0
  }

  ghost predicate TwiceAbove(e: seq<real>, u: real) {
    forall i :: 0 <= i < |e| ==> e[i] + e[i] > u
  }

  lemma {:induction false} NoneReachAbove(e: seq<real>, c: real)
    requires Positive(e) && c > Sum(e)
    ensures Reach(e, c) == 0
  {
    if e != [] {
      NoneReachAbove(e[1..], c + e[0]);
      NoneReachAbove(e[1..], c - e[0]);
    }
  }

  lemma {:induction false} TopReaches(e: seq<real>, u: real)
    requires Positive(e) && u >= 0.0
    ensures Reach(e, Sum(e) - u) >= 1
    ensures Reach(e, Sum(e) - u) == 1 <==> TwiceAbove(e, u)
  {
    if e != [] {
      var rest := e[1..];
      TopReaches(rest, u);
      assert TwiceAbove(e, u) <==> e[0] + e[0] > u && TwiceAbove(rest, u) by {
        assert forall i :: 0 < i < |e| ==> e[i] == rest[i - 1];
        assert forall i :: 0 <= i < |rest| ==> rest[i] == e[i + 1];
      }
      assert Sum(e) - u - e[0] == Sum(rest) - u;
      if e[0] + e[0] > u {
        NoneReachAbove(rest, Sum(e) - u + e[0]);
      } else {
        TopReaches(rest, u - e[0] - e[0]);
        assert Sum(e) - u + e[0] == Sum(rest) - (u - e[0] - e[0]);
      }
    }
  }

  /** No delta for the other side. */
  ghost predicate OneSided(d: seq<real>) {
    (forall i :: 0 <= i < |d| ==> d[i] >= 0.0) || (forall i :: 0 <= i < |d| ==> d[i] <= 0.0)
  }

  lemma {:induction false} SizesBound(d: seq<real>, i: nat)
    requires i < |d|
    ensures AbsSum(d) - Sum(d) >= Abs(d[i]) - d[i] && AbsSum(d) + Sum(d) >= Abs(d[i]) + d[i]
    ensures AbsSum(d) >= Sum(d) && AbsSum(d) >= -Sum(d)
  {
    if |d| > 1 {
      SizesBound(d[1..], if i == 0 then 0 else i - 1);
    } else {
      assert Sum(d[1..]) == 0.0 && AbsSum(d[1..]) == 0.0;
    }
  }

  lemma {:induction false} OneSidedSizes(d: seq<real>)
    ensures (forall i :: 0 <= i < |d| ==> d[i] >= 0.0) ==> AbsSum(d) == Sum(d) >= 0.0
    ensures (forall i :: 0 <= i < |d| ==> d[i] <= 0.0) ==> AbsSum(d) == -Sum(d) >= 0.0
  {
    if d != [] {
      OneSidedSizes(d[1..]);
      assert forall i :: 0 <= i < |d[1..]| ==> d[1..][i] == d[i + 1];
    }
  }

  /** The tolerance for rounding of a sum of one side's deltas. */
  ghost function Rounding(total: real): real {
    0.000000001 * (if total > 1.0 then total else if total < -1.0 then -total else 1.0)
  }

  ghost predicate Clear(d: seq<real>) {
    forall i :: 0 <= i < |d| && d[i] != 0.0 ==> d[i] + d[i] > Rounding(Sum(d)) || -(d[i] + d[i]) > Rounding(Sum(d))
  }

  lemma TwiceAboveIsOneSided(d: seq<real>, u: real)
    requires d != [] && (forall i :: 0 <= i < |d| ==> d[i] != 0.0) && u == AbsSum(d) - Threshold(d)
    ensures u >= 0.0
    ensures TwiceAbove(Magnitudes(d), u) <==> OneSided(d) && Clear(d)
  {
    SizesBound(d, 0);
    if OneSided(d) {
      OneSidedSizes(d);
      assert u == Rounding(Sum(d));
      assert forall i :: 0 <= i < |d| ==> Magnitudes(d)[i] == Abs(d[i]);
    } else {
      TwoSidedIsNotAbove(d, u);
    }
  }

  lemma TwoSidedIsNotAbove(d: seq<real>, u: real)
    requires (forall i :: 0 <= i < |d| ==> d[i] != 0.0) && !OneSided(d) && u >= AbsSum(d) - Abs(Sum(d))
    ensures !TwiceAbove(Magnitudes(d), u)
  {
    var i :| 0 <= i < |d| && d[i] > 0.0;
    var j :| 0 <= j < |d| && d[j] < 0.0;
    SizesBound(d, i);
    SizesBound(d, j);
    var e := Magnitudes(d);
    assert e[i] + e[i] <= u || e[j] + e[j] <= u;
  }

  lemma LowThresholdIsNotClear(e: seq<real>, u: real)
    requires Positive(e) && |e| >= 2 && u >= Sum(e)
    ensures !TwiceAbove(e, u)
  {
    OneSidedSizes(e[2..]);
    assert Sum(e) == e[0] + (e[1] + Sum(e[2..]));
    assert e[0] + e[0] <= u || e[1] + e[1] <= u;
  }

  lemma TopHits(e: seq<real>, c: real, u: real)
    requires Positive(e) && |e| >= 2 && c == Sum(e) - u && u >= 0.0
    ensures Hits(e, 0.0, c) == 2 <==> TwiceAbove(e, u)
  {
    if c > 0.0 {
      HitsBothWays(e, 0.0, c);
      TopReaches(e, u);
    } else {
      HitsAlways(e, 0.0, c);
      assert Pow2(|e|) == 2 * Pow2(|e| - 1) && Pow2(|e| - 1) == 2 * Pow2(|e| - 2);
      LowThresholdIsNotClear(e, u);
    }
  }

  lemma NonZeroHits(d: seq<real>)
    requires |d| >= 2 && forall i :: 0 <= i < |d| ==> d[i] != 0.0
    ensures Hits(d, 0.0, Threshold(d)) == 2 <==> OneSided(d) && Clear(d)
  {
    var c, u := Threshold(d), AbsSum(d) - Threshold(d);
    MagnitudesHit(d, 0.0, c);
    TwiceAboveIsOneSided(d, u);
    TopHits(Magnitudes(d), c, u);
  }

  lemma {:induction false} NonZeroHolds(d: seq<real>)
    ensures forall x :: x in NonZero(d) <==> x in d && x != 0.0
  {
    if d != [] {
      NonZeroHolds(d[1..]);
      assert d == [d[0]] + d[1..];
      if d[0] != 0.0 {
        assert NonZero(d) == [d[0]] + NonZero(d[1..]);
      }
    }
  }

  lemma NonZeroKeepsSides(d: seq<real>)
    ensures OneSided(NonZero(d)) <==> OneSided(d)
    ensures Clear(NonZero(d)) <==> Clear(d)
  {
    var z := NonZero(d);
    NonZeroHolds(d);
    NonZeroKeepsSums(d);
    forall i | 0 <= i < |z|
      ensures z[i] in d
    {
      assert z[i] in z;
    }
    forall i | 0 <= i < |d| && d[i] != 0.0
      ensures d[i] in z
    {
      assert d[i] in d;
    }
  }

  /**
   * With two non-zero deltas or more, an exact p-value is 2 / 2^n, the smallest there is, exactly when
   * no delta is for the other side and twice each is above the rounding of their sum.
   */
  lemma SmallestPValueIff(deltas: seq<real>, resamples: nat, draws: seq<Signs>)
    requires IsExact(deltas, resamples) && |NonZero(deltas)| >= 2
    ensures PValue(deltas, resamples, draws) == Share(2, Pow2(|NonZero(deltas)|)) <==> OneSided(deltas) && Clear(deltas)
  {
    var d := NonZero(deltas);
    NonZeroKeepsSides(deltas);
    NonZeroHits(d);
    TableHits(d, 0.0, Threshold(d));
    ShareInjective(Hits(d, 0.0, Threshold(d)), 2, Pow2(|d|));
  }
}
