// Familywise error: Holm's adjustment of tests that hold their level rarely rejects a
// true null, and so for a family of sign-flip tests over the same queries.
module FamilyWise {
  import opened Reals
  import opened Holm
  import SignFlip
  import SignFlipLevel

  function Share(part: nat, whole: nat): real
    requires whole > 0
  {
    SignFlip.Share(part, whole)
  }

  /** One p-value per test in each of the equally likely outcomes. */
  ghost predicate IsTable(outcomes: seq<seq<real>>, tests: nat) {
    outcomes != [] && forall w :: 0 <= w < |outcomes| ==> |outcomes[w]| == tests
  }

  /** The p-values of test j over the outcomes. */
  ghost function PValuesOf(outcomes: seq<seq<real>>, j: nat): (r: seq<real>)
    requires forall w :: 0 <= w < |outcomes| ==> j < |outcomes[w]|
    ensures |r| == |outcomes|
  {
    if outcomes == [] then [] else [outcomes[0][j]] + PValuesOf(outcomes[1..], j)
  }

  /** Test j gets a p-value of `a` or less in at most a share `a` of the outcomes. */
  ghost predicate HoldsItsLevel(outcomes: seq<seq<real>>, j: nat)
    requires outcomes != [] && forall w :: 0 <= w < |outcomes| ==> j < |outcomes[w]|
  {
    forall a :: a >= 0.0 ==> Share(CountAtMost(PValuesOf(outcomes, j), a), |outcomes|) <= a
  }

  /** Some test of t is rejected at alpha after Holm's adjustment of the whole family. */
  ghost predicate RejectsOneOf(p: seq<real>, t: set<nat>, alpha: real)
    requires forall j :: j in t ==> j < |p|
  {
    exists i :: i in t && Adjusted(p)[i] <= alpha
  }

  /** Some test of t has a p-value of at most b. */
  ghost predicate SmallOneOf(p: seq<real>, t: set<nat>, b: real)
    requires forall j :: j in t ==> j < |p|
  {
    exists i :: i in t && p[i] <= b
  }

  /** The outcomes in which some test of t is rejected. */
  ghost function RejectingOutcomes(outcomes: seq<seq<real>>, t: set<nat>, alpha: real): nat
    requires forall w, j :: 0 <= w < |outcomes| && j in t ==> j < |outcomes[w]|
  {
    if outcomes == [] then 0
    else (if RejectsOneOf(outcomes[0], t, alpha) then 1 else 0) + RejectingOutcomes(outcomes[1..], t, alpha)
  }

  ghost function SmallOutcomes(outcomes: seq<seq<real>>, t: set<nat>, b: real): nat
    requires forall w, j :: 0 <= w < |outcomes| && j in t ==> j < |outcomes[w]|
  {
    if outcomes == [] then 0
    else (if SmallOneOf(outcomes[0], t, b) then 1 else 0) + SmallOutcomes(outcomes[1..], t, b)
  }

  lemma {:induction false} RejectingAreSmall(outcomes: seq<seq<real>>, t: set<nat>, alpha: real, b: real)
    requires forall w, j :: 0 <= w < |outcomes| && j in t ==> j < |outcomes[w]|
    requires alpha < 1.0 && forall x :: Times(|t|, x) <= alpha ==> x <= b
    ensures RejectingOutcomes(outcomes, t, alpha) <= SmallOutcomes(outcomes, t, b)
  {
    if outcomes != [] {
      RejectingAreSmall(outcomes[1..], t, alpha, b);
      var p := outcomes[0];
      if RejectsOneOf(p, t, alpha) {
        var i :| i in t && Adjusted(p)[i] <= alpha;
        var j := RejectionNeedsSmallPValue(p, t, i, alpha);
      }
    }
  }

  /** One more test adds at most the outcomes in which it is small itself. */
  lemma {:induction false} SmallSplits(outcomes: seq<seq<real>>, t: set<nat>, j: nat, b: real)
    requires j in t && forall w, k :: 0 <= w < |outcomes| && k in t ==> k < |outcomes[w]|
    ensures SmallOutcomes(outcomes, t, b)
         <= SmallOutcomes(outcomes, t - {j}, b) + CountAtMost(PValuesOf(outcomes, j), b)
  {
    if outcomes != [] {
      SmallSplits(outcomes[1..], t, j, b);
      assert SmallOneOf(outcomes[0], t, b) ==> SmallOneOf(outcomes[0], t - {j}, b) || outcomes[0][j] <= b;
      assert PValuesOf(outcomes, j)[1..] == PValuesOf(outcomes[1..], j);
    }
  }

  lemma SharesAdd(a: nat, b: nat, whole: nat)
    requires whole > 0
    ensures Share(a + b, whole) == Share(a, whole) + Share(b, whole)
  {
  }

  lemma {:induction false} NoneSmall(outcomes: seq<seq<real>>, b: real)
    ensures SmallOutcomes(outcomes, {}, b) == 0
  {
    if outcomes != [] {
      NoneSmall(outcomes[1..], b);
    }
  }

  /** The union bound over the tests of t. */
  lemma {:induction false} UnionBound(outcomes: seq<seq<real>>, t: set<nat>, b: real)
    requires outcomes != [] && b >= 0.0
    requires forall w, j :: 0 <= w < |outcomes| && j in t ==> j < |outcomes[w]|
    requires forall j :: j in t ==> HoldsItsLevel(outcomes, j)
    ensures Share(SmallOutcomes(outcomes, t, b), |outcomes|) <= Times(|t|, b)
  {
    var m := |outcomes|;
    if t == {} {
      NoneSmall(outcomes, b);
    } else {
      var j :| j in t;
      var rest, own := SmallOutcomes(outcomes, t - {j}, b), CountAtMost(PValuesOf(outcomes, j), b);
      UnionBound(outcomes, t - {j}, b);
      assert HoldsItsLevel(outcomes, j);
      SmallSplits(outcomes, t, j, b);
      SharesAdd(rest, own, m);
      SignFlip.ShareMonotone(SmallOutcomes(outcomes, t, b), rest + own, m);
    }
  }

  lemma {:induction false} RejectingAtMostAll(outcomes: seq<seq<real>>, t: set<nat>, alpha: real)
    requires forall w, j :: 0 <= w < |outcomes| && j in t ==> j < |outcomes[w]|
    ensures RejectingOutcomes(outcomes, t, alpha) <= |outcomes|
  {
    if outcomes != [] {
      RejectingAtMostAll(outcomes[1..], t, alpha);
    }
  }

  /** The share b of alpha that each of k tests may use up. */
  lemma EqualParts(k: nat, alpha: real) returns (b: real)
    requires k > 0 && alpha >= 0.0
    ensures b >= 0.0 && Times(k, b) == alpha
    ensures forall x :: Times(k, x) <= alpha ==> x <= b
  {
    b := alpha / k as real;
    TimesIsProduct(k, b);
    forall x | Times(k, x) <= alpha
      ensures x <= b
    {
      TimesIsProduct(k, x);
      assert (b - x) * k as real >= 0.0;
    }
  }

  /**
   * The familywise promise: whatever the other tests do, if every test of the set t of
   * true nulls holds its level, then some test of t is adjusted to alpha or less in at
   * most a share alpha of the outcomes.
   */
  lemma FamilyWiseError(outcomes: seq<seq<real>>, tests: nat, t: set<nat>, alpha: real)
    requires IsTable(outcomes, tests) && alpha >= 0.0
    requires forall j :: j in t ==> j < tests && HoldsItsLevel(outcomes, j)
    ensures Share(RejectingOutcomes(outcomes, t, alpha), |outcomes|) <= alpha
  {
    var m := |outcomes|;
    RejectingAtMostAll(outcomes, t, alpha);
    if t == {} {
      NoRejection(outcomes, alpha);
    } else if alpha >= 1.0 {
      SignFlip.ShareBetween(0, RejectingOutcomes(outcomes, t, alpha), m);
    } else {
      var b := EqualParts(|t|, alpha);
      RejectingAreSmall(outcomes, t, alpha, b);
      UnionBound(outcomes, t, b);
      SignFlip.ShareMonotone(RejectingOutcomes(outcomes, t, alpha), SmallOutcomes(outcomes, t, b), m);
    }
  }

  lemma {:induction false} NoRejection(outcomes: seq<seq<real>>, alpha: real)
    ensures RejectingOutcomes(outcomes, {}, alpha) == 0
  {
    if outcomes != [] {
      NoRejection(outcomes[1..], alpha);
    }
  }

  /**
   * The two promises together. A family compares measures over the same n queries; where
   * a measure has no true difference, exchanging the two strategies at a query flips its
   * delta there. Over the 2^n equally likely exchanges, Holm's adjustment of the sign-flip
   * p-values rejects one of those measures in at most a share alpha, whatever the p-values
   * of the others.
   */
  lemma HolmOverSignFlips(deltas: seq<seq<real>>, n: nat, resamples: nat, draws: seq<SignFlip.Signs>,
                          outcomes: seq<seq<real>>, t: set<nat>, alpha: real)
    requires IsTable(outcomes, |deltas|) && |outcomes| == SignFlip.Pow2(n) && alpha >= 0.0
    requires forall j :: j in t ==> j < |deltas| && |deltas[j]| == n && SignFlip.IsExact(deltas[j], resamples)
    requires forall j :: j in t ==>
      PValuesOf(outcomes, j) == SignFlipLevel.ReflipPValues(deltas[j], resamples, draws, SignFlip.Pow2(n))
    ensures Share(RejectingOutcomes(outcomes, t, alpha), |outcomes|) <= alpha
  {
    forall j | j in t
      ensures j < |deltas| && HoldsItsLevel(outcomes, j)
    {
      forall a | a >= 0.0
        ensures Share(CountAtMost(PValuesOf(outcomes, j), a), |outcomes|) <= a
      {
        SignFlipLevel.ExactTestHoldsItsLevel(deltas[j], resamples, draws, a);
      }
    }
    FamilyWiseError(outcomes, |deltas|, t, alpha);
  }
}
