// Holm's step-down adjustment: the closed test it computes, the step-down rule it
// decides, and its control of false rejections.
module Holm {
  import opened Listings
  import opened Reals

  // ----- The order of the p-values

  predicate Before(p: seq<real>, i: nat, j: nat)
    requires i < |p| && j < |p|
  {
    p[i] < p[j] || (p[i] == p[j] && i < j)
  }

  /** `o` lists every index below n once, by increasing p-value. */
  ghost predicate IsSorting(p: seq<real>, o: seq<nat>, n: nat) {
    && n <= |p| && |o| == n
    && (forall r :: 0 <= r < n ==> o[r] < n)
    && (forall i :: 0 <= i < n ==> i in o)
    && (forall q, r :: 0 <= q < r < n ==> o[q] != o[r] && p[o[q]] <= p[o[r]])
  }

  /** A sorting that keeps equal p-values in index order, as Python's `sorted` does. */
  ghost predicate IsStableSorting(p: seq<real>, o: seq<nat>, n: nat) {
    IsSorting(p, o, n) && forall q, r :: 0 <= q < r < n ==> Before(p, o[q], o[r])
  }

  /** Where index i goes among the sorted indices `o`: after every p-value that is not larger. */
  function InsertAt(p: seq<real>, o: seq<nat>, i: nat): (k: nat)
    requires i < |p| && forall r :: 0 <= r < |o| ==> o[r] < |p|
    ensures k <= |o|
    ensures forall r :: k <= r < |o| ==> p[o[r]] > p[i]
    ensures k > 0 ==> p[o[k - 1]] <= p[i]
  {
    if o == [] || p[o[|o| - 1]] <= p[i] then |o|
    else InsertAt(p, o[..|o| - 1], i)
  }

  function Insert(o: seq<nat>, k: nat, i: nat): (r: seq<nat>)
    requires k <= |o|
    ensures |r| == |o| + 1 && r[k] == i
    ensures forall q :: 0 <= q < k ==> r[q] == o[q]
    ensures forall q :: k < q < |r| ==> r[q] == o[q - 1]
  {
    o[..k] + [i] + o[k..]
  }

  function SortedOrder(p: seq<real>, n: nat): (o: seq<nat>)
    requires n <= |p|
    ensures |o| == n && forall r :: 0 <= r < n ==> o[r] < n
  {
    if n == 0 then [] else
      var rest := SortedOrder(p, n - 1);
      var k := InsertAt(p, rest, n - 1);
      Insert(rest, k, n - 1)
  }

  lemma InsertionCovers(p: seq<real>, rest: seq<nat>, i: nat, k: nat)
    requires IsStableSorting(p, rest, i) && k <= |rest|
    ensures forall j :: 0 <= j < i + 1 ==> j in Insert(rest, k, i)
  {
    var o := Insert(rest, k, i);
    forall j | 0 <= j < i + 1
      ensures j in o
    {
      if j < i {
        var r := IndexOf(rest, j);
        assert o[if r < k then r else r + 1] == j;
      } else {
        assert o[k] == j;
      }
    }
  }

  lemma InsertionOrders(p: seq<real>, rest: seq<nat>, i: nat, k: nat, q: nat, r: nat)
    requires i < |p| && IsStableSorting(p, rest, i) && k <= |rest| && q < r < i + 1
    requires forall r :: k <= r < |rest| ==> p[rest[r]] > p[i]
    requires k > 0 ==> p[rest[k - 1]] <= p[i]
    ensures var o := Insert(rest, k, i);
            o[q] < i + 1 && o[r] < i + 1 && o[q] != o[r] && Before(p, o[q], o[r])
  {
    var o := Insert(rest, k, i);
    assert q < k ==> Before(p, rest[q], i);
  }

  lemma InsertionSorts(p: seq<real>, rest: seq<nat>, i: nat, k: nat)
    requires i < |p| && IsStableSorting(p, rest, i) && k <= |rest|
    requires forall r :: k <= r < |rest| ==> p[rest[r]] > p[i]
    requires k > 0 ==> p[rest[k - 1]] <= p[i]
    ensures IsStableSorting(p, Insert(rest, k, i), i + 1)
  {
    var o := Insert(rest, k, i);
    InsertionCovers(p, rest, i, k);
    assert forall r :: 0 <= r < i + 1 ==> o[r] < i + 1;
    forall q, r | 0 <= q < r < i + 1
      ensures o[q] != o[r] && Before(p, o[q], o[r])
    {
      InsertionOrders(p, rest, i, k, q, r);
    }
  }

  lemma NextIsStableSorting(p: seq<real>, n: nat)
    requires n < |p| && IsStableSorting(p, SortedOrder(p, n), n)
    ensures IsStableSorting(p, SortedOrder(p, n + 1), n + 1)
  {
    var rest := SortedOrder(p, n);
    InsertionSorts(p, rest, n, InsertAt(p, rest, n));
  }

  /** The order is by p-value, and by index where p-values are equal. */
  lemma TiesKeepTheirOrder(p: seq<real>, q: nat, r: nat)
    requires q < r < |p|
    ensures var o := SortedOrder(p, |p|);
      p[o[q]] < p[o[r]] || (p[o[q]] == p[o[r]] && o[q] < o[r])
  {
    OrderIsStableSorting(p, |p|);
    assert Before(p, SortedOrder(p, |p|)[q], SortedOrder(p, |p|)[r]);
  }

  lemma {:induction false} OrderIsStableSorting(p: seq<real>, n: nat)
    requires n <= |p|
    ensures IsStableSorting(p, SortedOrder(p, n), n)
  {
    if n > 0 {
      OrderIsStableSorting(p, n - 1);
      NextIsStableSorting(p, n - 1);
    }
  }

  lemma IndexOf(o: seq<nat>, i: nat) returns (r: nat)
    requires i in o
    ensures r < |o| && o[r] == i
  {
    r :| 0 <= r < |o| && o[r] == i;
  }

  // ----- The adjustment

  /** Bonferroni's value for k tests whose smallest p-value is x, capped at 1. */
  function Bonferroni(k: nat, x: real): real {
    Min(1.0, Times(k, x))
  }

  /** The running maximum after the first r ranks. */
  function Running(p: seq<real>, o: seq<nat>, r: nat): real
    requires r <= |o| == |p| && forall q :: 0 <= q < |o| ==> o[q] < |p|
  {
    if r == 0 then 0.0
    else Max(Running(p, o, r - 1), Bonferroni(|p| - (r - 1), p[o[r - 1]]))
  }

  /** The adjusted p-values once the first r ranks are placed; 0 elsewhere. */
  function Placed(p: seq<real>, o: seq<nat>, r: nat): (a: seq<real>)
    requires r <= |o| == |p| && forall q :: 0 <= q < |o| ==> o[q] < |p|
    ensures |a| == |p|
  {
    if r == 0 then seq(|p|, _ => 0.0)
    else Placed(p, o, r - 1)[o[r - 1] := Running(p, o, r)]
  }

  lemma {:induction false} PlacedAt(p: seq<real>, o: seq<nat>, r: nat, q: nat)
    requires IsSorting(p, o, |p|) && q < r <= |p|
    ensures Placed(p, o, r)[o[q]] == Running(p, o, q + 1)
  {
    if q < r - 1 {
      PlacedAt(p, o, r - 1, q);
      assert o[q] != o[r - 1];
    }
  }

  /** Holm's adjusted p-values as a function. */
  function Adjusted(p: seq<real>): (a: seq<real>)
    ensures |a| == |p|
  {
    Placed(p, SortedOrder(p, |p|), |p|)
  }

  method CappedProduct(k: nat, x: real) returns (b: real)
    ensures b == Bonferroni(k, x)
  {
    TimesIsProduct(k, x);
    b := Min(1.0, k as real * x);
  }

  /** Holm's adjusted p-values, in the order given. */
  method HolmAdjusted(p: seq<real>) returns (adjusted: seq<real>)
    ensures adjusted == Adjusted(p)
    ensures forall i :: 0 <= i < |p| ==> IsClosedTestValue(p, i, adjusted[i])
  {
    var m := |p|;
    adjusted := seq(m, _ => 0.0);
    var running := 0.0;
    var order := SortedOrder(p, m);
    for rank := 0 to m
      invariant running == Running(p, order, rank)
      invariant adjusted == Placed(p, order, rank)
    {
      var index := order[rank];
      var capped := CappedProduct(m - rank, p[index]);
      running := Max(running, capped);
      adjusted := adjusted[index := running];
    }
    AdjustedIsClosedTest(p);
  }

  // ----- The closed test

  /** `x` is the least p-value over the set of tests `s`. */
  ghost predicate IsLeast(p: seq<real>, s: set<nat>, x: real) {
    && (forall j :: j in s ==> j < |p|)
    && (forall j :: j in s ==> x <= p[j])
    && (exists j :: j in s && x == p[j])
  }

  /** The Bonferroni tests of all sets of tests that hold i, as their values. */
  ghost predicate BonferroniOver(p: seq<real>, i: nat, s: set<nat>, a: real) {
    i in s && exists x :: IsLeast(p, s, x) && a == Bonferroni(|s|, x)
  }

  /** `a` is the largest Bonferroni value over the sets of tests that hold i (0 when all are negative). */
  ghost predicate IsClosedTestValue(p: seq<real>, i: nat, a: real) {
    && a >= 0.0
    && (forall s, b :: BonferroniOver(p, i, s, b) ==> b <= a)
    && (a == 0.0 || exists s :: BonferroniOver(p, i, s, a))
  }

  lemma {:induction false} RunningGrows(p: seq<real>, o: seq<nat>, q: nat, r: nat)
    requires q <= r <= |o| == |p| && forall k :: 0 <= k < |o| ==> o[k] < |p|
    ensures 0.0 <= Running(p, o, q) <= Running(p, o, r)
    decreases r
  {
    if q < r {
      RunningGrows(p, o, q, r - 1);
    } else if r > 0 {
      RunningGrows(p, o, r - 1, r - 1);
    }
  }

  lemma {:induction false} RunningAttained(p: seq<real>, o: seq<nat>, r: nat) returns (q: nat)
    requires r <= |o| == |p| && forall k :: 0 <= k < |o| ==> o[k] < |p|
    requires Running(p, o, r) > 0.0
    ensures q < r && Running(p, o, r) == Bonferroni(|p| - q, p[o[q]])
  {
    if Running(p, o, r) == Bonferroni(|p| - (r - 1), p[o[r - 1]]) {
      q := r - 1;
    } else {
      q := RunningAttained(p, o, r - 1);
    }
  }

  lemma {:induction false} ScaleGrows(j: nat, k: nat, x: real)
    requires j <= k
    ensures Times(j, x) <= Max(0.0, Times(k, x))
    ensures x >= 0.0 ==> 0.0 <= Times(j, x) <= Times(k, x)
    ensures x <= 0.0 ==> Times(k, x) <= Times(j, x) <= 0.0
  {
    if j > 0 {
      ScaleGrows(j - 1, k - 1, x);
    } else if k > 0 {
      ScaleGrows(0, k - 1, x);
    }
  }

  lemma {:induction false} ScaleValue(k: nat, x: real, y: real)
    requires x <= y
    ensures Times(k, x) <= Times(k, y)
  {
    if k > 0 {
      ScaleValue(k - 1, x, y);
    }
  }

  /** The least rank in a non-empty set of tests. */
  lemma {:induction false} LeastRank(o: seq<nat>, s: set<nat>, q: nat) returns (r: nat)
    requires q <= |o| && s != {} && forall j :: j in s ==> j in o[q..]
    ensures q <= r < |o| && o[r] in s
    ensures forall j :: j in s ==> j in o[r..]
    decreases |o| - q
  {
    var j :| j in s;
    assert o[q..] != [];
    if o[q] in s {
      r := q;
    } else {
      assert o[q..] == [o[q]] + o[q + 1..];
      r := LeastRank(o, s, q + 1);
    }
  }

  /** The first-ranked test of a set holds its least p-value, and the set lies among the tests from there on. */
  lemma FirstRanked(p: seq<real>, o: seq<nat>, r: nat, s: set<nat>, x: real) returns (q: nat)
    requires IsSorting(p, o, |p|) && r < |p| && o[r] in s && IsLeast(p, s, x)
    ensures q <= r && x == p[o[q]] && |s| <= |p| - q
  {
    assert o[0..] == o;
    q := LeastRank(o, s, 0);
    SubsetSize(s, Elements(o[q..]));
    ElementsSize(o[q..]);
    var k := IndexOf(o[q..], o[r]);
    assert o[q + k] == o[r];
    RankedFrom(p, o, q, s, x);
  }

  lemma RankedFrom(p: seq<real>, o: seq<nat>, q: nat, s: set<nat>, x: real)
    requires IsSorting(p, o, |p|) && q < |p| && o[q] in s && IsLeast(p, s, x)
    requires forall j :: j in s ==> j in o[q..]
    ensures x == p[o[q]]
  {
    var j :| j in s && x == p[j];
    var k := IndexOf(o[q..], j);
    assert j == o[q + k];
  }

  /** The value of rank q, over no more tests than are ranked from q on, is within the running maximum. */
  lemma RankBound(p: seq<real>, o: seq<nat>, q: nat, r: nat, k: nat)
    requires q <= r < |o| == |p| && k <= |p| - q && forall i :: 0 <= i < |o| ==> o[i] < |p|
    ensures Bonferroni(k, p[o[q]]) <= Running(p, o, r + 1)
  {
    ScaleGrows(k, |p| - q, p[o[q]]);
    RunningGrows(p, o, q + 1, r + 1);
    RunningGrows(p, o, 0, r + 1);
  }

  /** No set of tests that holds o[r] has a Bonferroni value above the running maximum there. */
  lemma ClosedTestBound(p: seq<real>, o: seq<nat>, r: nat, s: set<nat>, b: real)
    requires IsSorting(p, o, |p|) && r < |p|
    requires BonferroniOver(p, o[r], s, b)
    ensures b <= Running(p, o, r + 1)
  {
    var x :| IsLeast(p, s, x) && b == Bonferroni(|s|, x);
    var q := FirstRanked(p, o, r, s, x);
    RankBound(p, o, q, r, |s|);
  }

  /** The tests ranked from q on: as many as ranks are left, the first of them with the least p-value. */
  lemma RankedOn(p: seq<real>, o: seq<nat>, q: nat)
    requires IsSorting(p, o, |p|) && q < |p|
    ensures |Elements(o[q..])| == |p| - q
    ensures IsLeast(p, Elements(o[q..]), p[o[q]])
  {
    var rest := o[q..];
    DistinctSize(rest);
    assert rest[0] == o[q];
    forall j | j in Elements(rest)
      ensures j < |p| && p[o[q]] <= p[j]
    {
      var k := IndexOf(rest, j);
      assert o[q + k] == j;
    }
  }

  lemma RankedAfter(o: seq<nat>, q: nat, r: nat)
    requires q <= r < |o|
    ensures o[r] in Elements(o[q..])
  {
    assert o[q..][r - q] == o[r];
  }

  lemma SetGives(p: seq<real>, i: nat, s: set<nat>, x: real)
    requires i in s && IsLeast(p, s, x)
    ensures BonferroniOver(p, i, s, Bonferroni(|s|, x))
  {
  }

  /** The running maximum is attained by the tests not yet ranked where it last rose. */
  lemma ClosedTestAttained(p: seq<real>, o: seq<nat>, r: nat) returns (s: set<nat>)
    requires IsSorting(p, o, |p|) && r < |p|
    requires Running(p, o, r + 1) > 0.0
    ensures BonferroniOver(p, o[r], s, Running(p, o, r + 1))
  {
    var q := RunningAttained(p, o, r + 1);
    s := Elements(o[q..]);
    RankedOn(p, o, q);
    RankedAfter(o, q, r);
    SetGives(p, o[r], s, p[o[q]]);
  }

  /** Whichever way ties are ordered, the running maximum is the closed test's value. */
  lemma RunningIsClosedTest(p: seq<real>, o: seq<nat>, r: nat)
    requires IsSorting(p, o, |p|) && r < |p|
    ensures IsClosedTestValue(p, o[r], Running(p, o, r + 1))
  {
    RunningGrows(p, o, 0, r + 1);
    forall s, b | BonferroniOver(p, o[r], s, b)
      ensures b <= Running(p, o, r + 1)
    {
      ClosedTestBound(p, o, r, s, b);
    }
    if Running(p, o, r + 1) > 0.0 {
      var s := ClosedTestAttained(p, o, r);
    }
  }

  /** Holm's adjustment is the closure of Bonferroni's test. */
  lemma AdjustedIsClosedTest(p: seq<real>)
    ensures forall i :: 0 <= i < |p| ==> IsClosedTestValue(p, i, Adjusted(p)[i])
  {
    var o := SortedOrder(p, |p|);
    OrderIsStableSorting(p, |p|);
    forall i | 0 <= i < |p|
      ensures IsClosedTestValue(p, i, Adjusted(p)[i])
    {
      var r := IndexOf(o, i);
      PlacedAt(p, o, |p|, r);
      RunningIsClosedTest(p, o, r);
    }
  }

  // ----- What follows from the closed test

  /** The closed test has one value: no adjusted p-value depends on how ties are ordered. */
  lemma TieOrderIrrelevant(p: seq<real>, o: seq<nat>, r: nat)
    requires IsSorting(p, o, |p|) && r < |p|
    ensures Running(p, o, r + 1) == Adjusted(p)[o[r]]
  {
    RunningIsClosedTest(p, o, r);
    AdjustedIsClosedTest(p);
  }

  /** Some test of a non-empty set has its least p-value. */
  lemma {:induction false} LeastExists(p: seq<real>, s: set<nat>) returns (x: real)
    requires s != {} && forall j :: j in s ==> j < |p|
    ensures IsLeast(p, s, x)
  {
    var j :| j in s;
    if s == {j} {
      x := p[j];
    } else {
      var y := LeastExists(p, s - {j});
      x := Min(y, p[j]);
      var k :| k in s - {j} && y == p[k];
      assert k in s && j in s;
    }
  }

  /** Adjusted p-values are monotone: raising p-values lowers none of them. */
  lemma AdjustedMonotone(p: seq<real>, p': seq<real>, i: nat)
    requires |p| == |p'| && forall j :: 0 <= j < |p| ==> p[j] <= p'[j]
    requires i < |p|
    ensures Adjusted(p)[i] <= Adjusted(p')[i]
  {
    var a := Adjusted(p)[i];
    AdjustedIsClosedTest(p);
    AdjustedIsClosedTest(p');
    if a > 0.0 {
      var s :| BonferroniOver(p, i, s, a);
      var x :| IsLeast(p, s, x) && a == Bonferroni(|s|, x);
      var x' := LeastExists(p', s);
      ScaleValue(|s|, x, x');
      assert BonferroniOver(p', i, s, Bonferroni(|s|, x'));
    }
  }

  /** Over its own set of one, a test has its p-value for value. */
  lemma OverItself(p: seq<real>, i: nat)
    requires i < |p|
    ensures BonferroniOver(p, i, {i}, Min(1.0, p[i]))
  {
    TimesIsProduct(1, p[i]);
    SetGives(p, i, {i}, p[i]);
  }

  /** No set gives a test more than all tests would at its own p-value. */
  lemma OverSetBound(p: seq<real>, i: nat, s: set<nat>, a: real)
    requires i < |p| && p[i] >= 0.0 && BonferroniOver(p, i, s, a)
    ensures a <= Bonferroni(|p|, p[i])
  {
    var x :| IsLeast(p, s, x) && a == Bonferroni(|s|, x);
    SubsetSize(s, Indices(|p|));
    ScaleValue(|s|, x, p[i]);
    ScaleGrows(|s|, |p|, p[i]);
  }

  /** An adjusted p-value lies between min(1, p) and min(1, m * p), and some set of tests attains it. */
  lemma AdjustedBounds(p: seq<real>, i: nat)
    requires i < |p| && forall j :: 0 <= j < |p| ==> p[j] >= 0.0
    ensures Min(1.0, p[i]) <= Adjusted(p)[i] <= Bonferroni(|p|, p[i])
    ensures exists s :: BonferroniOver(p, i, s, Adjusted(p)[i])
  {
    AdjustedIsClosedTest(p);
    OverItself(p, i);
    var s :| BonferroniOver(p, i, s, Adjusted(p)[i]);
    OverSetBound(p, i, s, Adjusted(p)[i]);
  }

  /** `p'` holds the p-values of `p` in another order: entry i is entry to[i] of `p`. */
  ghost predicate IsReordering(p: seq<real>, p': seq<real>, to: seq<nat>) {
    && |p| == |p'| == |to|
    && (forall i :: 0 <= i < |p| ==> to[i] < |p| && p'[i] == p[to[i]])
    && (forall i, j :: 0 <= i < j < |p| ==> to[i] != to[j])
    && (forall j :: 0 <= j < |p| ==> j in to)
  }

  ghost function Renamed(o: seq<nat>, to: seq<nat>): (r: seq<nat>)
    requires forall k :: 0 <= k < |o| ==> o[k] < |to|
    ensures |r| == |o| && forall k :: 0 <= k < |o| ==> r[k] == to[o[k]]
  {
    if o == [] then [] else [to[o[0]]] + Renamed(o[1..], to)
  }

  lemma RenamedSorts(p: seq<real>, p': seq<real>, to: seq<nat>, o': seq<nat>)
    requires IsReordering(p, p', to) && IsSorting(p', o', |p|)
    ensures IsSorting(p, Renamed(o', to), |p|)
  {
    var o := Renamed(o', to);
    forall j | 0 <= j < |p|
      ensures j in o
    {
      var i := IndexOf(to, j);
      var r := IndexOf(o', i);
      assert o[r] == j;
    }
  }

  lemma {:induction false} RunningRenamed(p: seq<real>, p': seq<real>, to: seq<nat>, o': seq<nat>, r: nat)
    requires IsReordering(p, p', to) && IsSorting(p', o', |p|) && r <= |p|
    ensures IsSorting(p, Renamed(o', to), |p|)
    ensures Running(p', o', r) == Running(p, Renamed(o', to), r)
  {
    RenamedSorts(p, p', to, o');
    if r > 0 {
      RunningRenamed(p, p', to, o', r - 1);
    }
  }

  /** Adjusting reordered p-values reorders the adjusted ones. */
  lemma AdjustedEquivariant(p: seq<real>, p': seq<real>, to: seq<nat>, i: nat)
    requires IsReordering(p, p', to) && i < |p|
    ensures Adjusted(p')[i] == Adjusted(p)[to[i]]
  {
    var o' := SortedOrder(p', |p|);
    OrderIsStableSorting(p', |p|);
    var r := IndexOf(o', i);
    RunningRenamed(p, p', to, o', r + 1);
    TieOrderIrrelevant(p, Renamed(o', to), r);
    TieOrderIrrelevant(p', o', r);
  }

  // ----- The step-down rule

  /** Holm's rule from rank q on: reject while the p-value times the tests left is at most alpha. */
  ghost function StepDown(p: seq<real>, o: seq<nat>, alpha: real, q: nat): set<nat>
    requires |o| == |p| && forall k :: 0 <= k < |o| ==> o[k] < |p|
    decreases |p| - q
  {
    if q < |p| && Times(|p| - q, p[o[q]]) <= alpha then {o[q]} + StepDown(p, o, alpha, q + 1)
    else {}
  }

  lemma {:induction false} StepDownRejects(p: seq<real>, o: seq<nat>, alpha: real, q: nat, r: nat)
    requires IsSorting(p, o, |p|) && q <= r < |p| && 0.0 <= alpha < 1.0
    requires Running(p, o, q) <= alpha
    ensures o[r] in StepDown(p, o, alpha, q) <==> Running(p, o, r + 1) <= alpha
    decreases |p| - q
  {
    RunningGrows(p, o, q + 1, r + 1);
    if Times(|p| - q, p[o[q]]) <= alpha && q < r {
      StepDownRejects(p, o, alpha, q + 1, r);
      assert o[q] != o[r];
    }
  }

  /** The tests adjusted to alpha or less are exactly those the step-down rule rejects. */
  lemma AdjustedDecidesStepDown(p: seq<real>, i: nat, alpha: real)
    requires i < |p| && 0.0 <= alpha < 1.0
    ensures Adjusted(p)[i] <= alpha <==> i in StepDown(p, SortedOrder(p, |p|), alpha, 0)
  {
    var o := SortedOrder(p, |p|);
    OrderIsStableSorting(p, |p|);
    var r := IndexOf(o, i);
    TieOrderIrrelevant(p, o, r);
    StepDownRejects(p, o, alpha, 0, r);
  }

  /** Wherever a test of t is rejected, some test of t has a p-value of at most alpha / |t|. */
  lemma RejectionNeedsSmallPValue(p: seq<real>, t: set<nat>, i: nat, alpha: real) returns (j: nat)
    requires i in t && forall k :: k in t ==> k < |p|
    requires Adjusted(p)[i] <= alpha < 1.0
    ensures j in t && Times(|t|, p[j]) <= alpha
  {
    AdjustedIsClosedTest(p);
    var x := LeastExists(p, t);
    assert BonferroniOver(p, i, t, Bonferroni(|t|, x));
    j :| j in t && x == p[j];
  }
}
