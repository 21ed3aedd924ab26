// The order a trial shows a query's assertions in: draws of a shuffle, each kept once.
module TrialOrders {
  import opened Listings

  // ----- One shuffle

  /** The generator: the number below or at `i` it gives for position `i` of the `k`-th shuffle. */
  type Generator = (nat, nat) -> nat

  ghost predicate Bounded(rng: Generator) {
    forall k, i :: rng(k, i) <= i
  }

  /** `order` lists each of 0..count once. */
  predicate IsOrder(order: seq<nat>, count: nat) {
    && |order| == count
    && (forall i :: 0 <= i < count ==> order[i] < count)
    && forall i, j :: 0 <= i < j < count ==> order[i] != order[j]
  }

  function Range(count: nat): (order: seq<nat>)
    ensures |order| == count && forall i :: 0 <= i < count ==> order[i] == i
  {
    if count == 0 then [] else Range(count - 1) + [count - 1]
  }

  function Swap(s: seq<nat>, i: nat, j: nat): seq<nat>
    requires i < |s| && j < |s|
  {
    s[i := s[j]][j := s[i]]
  }

  /** The shuffle's remaining steps, from position `i` down to 1. */
  ghost function Shuffled(s: seq<nat>, rng: Generator, k: nat, i: int): seq<nat>
    requires Bounded(rng) && i < |s|
    decreases i
  {
    if i <= 0 then s else Shuffled(Swap(s, i, rng(k, i)), rng, k, i - 1)
  }

  method Shuffle(a: array<nat>, rng: Generator, k: nat)
    requires Bounded(rng)
    modifies a
    ensures a[..] == Shuffled(old(a[..]), rng, k, a.Length - 1)
  {
    var i := a.Length - 1;
    while i > 0
      invariant i < a.Length
      invariant Shuffled(a[..], rng, k, i) == Shuffled(old(a[..]), rng, k, a.Length - 1)
    {
      var j := rng(k, i);
      ghost var before := a[..];
      a[i], a[j] := a[j], a[i];
      assert a[..] == Swap(before, i, j);
      i := i - 1;
    }
  }

  lemma SwapKeepsOrder(s: seq<nat>, count: nat, i: nat, j: nat)
    requires IsOrder(s, count) && i < count && j < count
    ensures IsOrder(Swap(s, i, j), count)
  {
  }

  lemma {:induction false} ShuffleKeepsOrder(s: seq<nat>, rng: Generator, k: nat, i: int)
    requires Bounded(rng) && IsOrder(s, |s|) && i < |s|
    ensures IsOrder(Shuffled(s, rng, k, i), |s|)
    decreases i
  {
    if i > 0 {
      SwapKeepsOrder(s, |s|, i, rng(k, i));
      ShuffleKeepsOrder(Swap(s, i, rng(k, i)), rng, k, i - 1);
    }
  }

  // ----- The orders seen

  ghost function Draw(rng: Generator, count: nat, k: nat): seq<nat>
    requires Bounded(rng)
  {
    Shuffled(Range(count), rng, k, count - 1)
  }

  /** The distinct orders of the first `draws` shuffles, in the order they came up. */
  ghost function Seen(rng: Generator, count: nat, draws: nat): seq<seq<nat>>
    requires Bounded(rng)
  {
    if draws == 0 then []
    else
      var before, next := Seen(rng, count, draws - 1), Draw(rng, count, draws - 1);
      if next in before then before else before + [next]
  }

  function Factorial(n: nat): (f: nat)
    ensures f >= 1
  {
    if n == 0 then 1 else Product(n, Factorial(n - 1))
  }

  /** n times f, by repeated addition. */
  function Product(n: nat, f: nat): (p: nat)
    ensures n >= 1 ==> p >= f
  {
    if n == 0 then 0 else f + Product(n - 1, f)
  }

  /** Which of the distinct orders a trial takes. */
  function Cycle(count: nat, trial: nat): nat {
    if count < 13 then trial % Factorial(count) else trial
  }

  lemma CycleWraps(trial: nat, orders: nat)
    requires orders >= 1
    ensures trial % orders < orders && (trial < orders ==> trial % orders == trial)
  {
  }

  function DistinctOrders(count: nat, trials: nat): nat {
    if count >= 13 then trials else if trials <= Factorial(count) then trials else Factorial(count)
  }

  /**
   * `enough` draws show the order the trial takes: the generator is only a parameter, so that it
   * gets there is assumed of it.
   */
  ghost predicate Reaches(rng: Generator, count: nat, trial: nat, enough: nat)
    requires Bounded(rng)
  {
    Cycle(count, trial) < |Seen(rng, count, enough)|
  }

  method TrialOrder(rng: Generator, count: nat, trial: nat, ghost enough: nat) returns (order: seq<nat>)
    requires Bounded(rng) && Reaches(rng, count, trial, enough)
    ensures order == Seen(rng, count, enough)[Cycle(count, trial)]
    ensures IsOrder(order, count)
  {
    var cycle := Cycle(count, trial);
    var seen: seq<seq<nat>>, k := [], 0;
    while |seen| <= cycle
      invariant k <= enough && seen == Seen(rng, count, k)
      decreases enough - k
    {
      var a := new nat[count];
      for i := 0 to count
        invariant forall j :: 0 <= j < i ==> a[j] == j
      {
        a[i] := i;
      }
      assert a[..] == Range(count);
      Shuffle(a, rng, k);
      if a[..] !in seen {
        seen := seen + [a[..]];
      }
      k := k + 1;
    }
    SeenGrows(rng, count, k, enough);
    SeenAreOrders(rng, count, k, cycle);
    order := seen[cycle];
  }

  /** More draws only append: the order of a trial never changes. */
  lemma {:induction false} SeenGrows(rng: Generator, count: nat, k: nat, more: nat)
    requires Bounded(rng) && k <= more
    ensures Seen(rng, count, k) <= Seen(rng, count, more)
  {
    if k < more {
      SeenGrows(rng, count, k, more - 1);
    }
  }

  lemma {:induction false} SeenAreOrders(rng: Generator, count: nat, draws: nat, i: nat)
    requires Bounded(rng) && i < |Seen(rng, count, draws)|
    ensures IsOrder(Seen(rng, count, draws)[i], count)
  {
    var before := Seen(rng, count, draws - 1);
    if i < |before| {
      SeenAreOrders(rng, count, draws - 1, i);
    } else {
      ShuffleKeepsOrder(Range(count), rng, draws - 1, count - 1);
    }
  }

  lemma {:induction false} SeenDiffer(rng: Generator, count: nat, draws: nat, i: nat, j: nat)
    requires Bounded(rng) && i < j < |Seen(rng, count, draws)|
    ensures Seen(rng, count, draws)[i] != Seen(rng, count, draws)[j]
  {
    var before := Seen(rng, count, draws - 1);
    if j < |before| {
      SeenDiffer(rng, count, draws - 1, i, j);
    } else {
      assert Seen(rng, count, draws)[i] == before[i];
    }
  }

  // ----- How many orders the trials show

  /** The orders the first `trials` trials are shown in. */
  ghost function Shown(rng: Generator, count: nat, trials: nat, enough: nat): set<seq<nat>>
    requires Bounded(rng) && forall t :: 0 <= t < trials ==> Reaches(rng, count, t, enough)
  {
    if trials == 0 then {}
    else
      assert Reaches(rng, count, trials - 1, enough);
      Shown(rng, count, trials - 1, enough) + {Seen(rng, count, enough)[Cycle(count, trials - 1)]}
  }

  /** The first `m` orders seen, as a set: all of them differ. */
  ghost function FirstSeen(rng: Generator, count: nat, enough: nat, m: nat): set<seq<nat>>
    requires Bounded(rng) && m <= |Seen(rng, count, enough)|
  {
    if m == 0 then {} else FirstSeen(rng, count, enough, m - 1) + {Seen(rng, count, enough)[m - 1]}
  }

  lemma {:induction false} FirstSeenHolds(rng: Generator, count: nat, enough: nat, m: nat, i: nat)
    requires Bounded(rng) && m <= |Seen(rng, count, enough)| && i < |Seen(rng, count, enough)|
    ensures Seen(rng, count, enough)[i] in FirstSeen(rng, count, enough, m) <==> i < m
  {
    if m > 0 {
      FirstSeenHolds(rng, count, enough, m - 1, i);
      if i < m - 1 {
        SeenDiffer(rng, count, enough, i, m - 1);
      } else if m - 1 < i {
        SeenDiffer(rng, count, enough, m - 1, i);
      }
    }
  }

  lemma {:induction false} FirstSeenSize(rng: Generator, count: nat, enough: nat, m: nat)
    requires Bounded(rng) && m <= |Seen(rng, count, enough)|
    ensures |FirstSeen(rng, count, enough, m)| == m
  {
    if m > 0 {
      FirstSeenSize(rng, count, enough, m - 1);
      FirstSeenHolds(rng, count, enough, m - 1, m - 1);
    }
  }

  lemma {:induction false} ShownAreFirstSeen(rng: Generator, count: nat, trials: nat, enough: nat)
    requires Bounded(rng) && forall t :: 0 <= t < trials ==> Reaches(rng, count, t, enough)
    ensures DistinctOrders(count, trials) <= |Seen(rng, count, enough)|
    ensures Shown(rng, count, trials, enough) == FirstSeen(rng, count, enough, DistinctOrders(count, trials))
  {
    if trials > 0 {
      ShownAreFirstSeen(rng, count, trials - 1, enough);
      assert Reaches(rng, count, trials - 1, enough);
      var next := Cycle(count, trials - 1);
      CycleWraps(trials - 1, Factorial(count));
      var m := DistinctOrders(count, trials - 1);
      if next < m {
        FirstSeenHolds(rng, count, enough, m, next);
      }
    }
  }

  /** The first `trials` trials show exactly `distinct_orders` different orders. */
  lemma TrialsShowDistinctOrders(rng: Generator, count: nat, trials: nat, enough: nat)
    requires Bounded(rng) && forall t :: 0 <= t < trials ==> Reaches(rng, count, t, enough)
    ensures |Shown(rng, count, trials, enough)| == DistinctOrders(count, trials)
  {
    ShownAreFirstSeen(rng, count, trials, enough);
    FirstSeenSize(rng, count, enough, DistinctOrders(count, trials));
  }

  // ----- No generator shows more than count! orders

  /** `s` lists each of `items` once. */
  ghost predicate Arranges(s: seq<nat>, items: set<nat>) {
    && (forall x :: x in items <==> x in s)
    && forall i, j :: 0 <= i < j < |s| ==> s[i] != s[j]
  }

  lemma TailArranges(s: seq<nat>, items: set<nat>)
    requires Arranges(s, items) && s != []
    ensures Arranges(s[1..], items - {s[0]})
  {
    assert s == [s[0]] + s[1..];
  }

  lemma SameTail(s: seq<nat>, t: seq<nat>)
    requires s != [] && t != [] && s[0] == t[0] && s[1..] == t[1..]
    ensures s == t
  {
    assert s == [s[0]] + s[1..] && t == [t[0]] + t[1..];
  }

  lemma {:induction false} TailsAsMany(arrangements: set<seq<nat>>, head: nat)
    requires forall s :: s in arrangements ==> s != [] && s[0] == head
    ensures |set s | s in arrangements :: s[1..]| == |arrangements|
    decreases arrangements
  {
    var tails := set s | s in arrangements :: s[1..];
    if arrangements != {} {
      var t :| t in arrangements;
      var rest := arrangements - {t};
      TailsAsMany(rest, head);
      var restTails := set s | s in rest :: s[1..];
      if t[1..] in restTails {
        var u :| u in rest && u[1..] == t[1..];
        SameTail(u, t);
        assert false;
      }
      assert tails == restTails + {t[1..]};
    }
  }

  /** At most (n-1)! arrangements of n items start with a given head. */
  lemma {:induction false} HeadBoundsArrangements(arrangements: set<seq<nat>>, items: set<nat>, head: nat)
    requires head in items
    requires forall s :: s in arrangements ==> Arranges(s, items) && s != [] && s[0] == head
    ensures |arrangements| <= Factorial(|items| - 1)
    decreases items, 0
  {
    var tails := set s | s in arrangements :: s[1..];
    TailsAsMany(arrangements, head);
    forall t | t in tails
      ensures Arranges(t, items - {head})
    {
      var s :| s in arrangements && s[1..] == t;
      TailArranges(s, items);
    }
    ArrangementsBound(tails, items - {head});
  }

  /** Those that start with the head. */
  ghost function StartingWith(arrangements: set<seq<nat>>, head: nat): set<seq<nat>> {
    set s | s in arrangements && s != [] && s[0] == head
  }

  lemma RestSize(all: set<seq<nat>>, part: set<seq<nat>>)
    requires part <= all
    ensures |all| == |part| + |all - part|
  {
    assert all == part + (all - part);
  }

  /** Those that start with one of the heads: at most (n-1)! each. */
  lemma {:induction false} HeadsBoundArrangements(arrangements: set<seq<nat>>, items: set<nat>, heads: set<nat>)
    requires items != {} && heads <= items
    requires forall s :: s in arrangements ==> Arranges(s, items) && s != [] && s[0] in heads
    ensures |arrangements| <= Product(|heads|, Factorial(|items| - 1))
    decreases items, 1, heads
  {
    if heads == {} {
      assert arrangements == {};
    } else {
      var head :| head in heads;
      var mine := StartingWith(arrangements, head);
      HeadsBoundArrangements(arrangements - mine, items, heads - {head});
      HeadBoundsArrangements(mine, items, head);
      RestSize(arrangements, mine);
      assert |heads| == |heads - {head}| + 1;
      assert Product(|heads|, Factorial(|items| - 1))
        == Factorial(|items| - 1) + Product(|heads - {head}|, Factorial(|items| - 1));
    }
  }

  lemma {:induction false} ArrangementsBound(arrangements: set<seq<nat>>, items: set<nat>)
    requires forall s :: s in arrangements ==> Arranges(s, items)
    ensures |arrangements| <= Factorial(|items|)
    decreases items, 2
  {
    if items == {} {
      forall s | s in arrangements
        ensures s == []
      {
        DistinctSize(s);
        assert Elements(s) == {};
      }
      assert arrangements <= {[]};
      AtMostOne(arrangements);
    } else {
      forall s | s in arrangements
        ensures s != [] && s[0] in items
      {
        var x :| x in items;
        assert x in s;
      }
      HeadsBoundArrangements(arrangements, items, items);
    }
  }

  lemma AtMostOne(arrangements: set<seq<nat>>)
    requires arrangements <= {[]}
    ensures |arrangements| <= 1
  {
    if [] in arrangements {
      assert arrangements == {[]};
    } else {
      assert arrangements == {};
    }
  }

  lemma SubsetOfSameSize(s: set<nat>, t: set<nat>)
    requires s <= t && |s| == |t|
    ensures s == t
  {
    assert |t - s| == 0;
  }

  /** An order shows every index: its distinct entries leave none out. */
  lemma OrderShowsAll(order: seq<nat>, count: nat)
    requires IsOrder(order, count)
    ensures Arranges(order, Indices(count))
    ensures forall i :: 0 <= i < count ==> i in order
  {
    DistinctSize(order);
    SubsetOfSameSize(Elements(order), Indices(count));
  }

  /**
   * No generator ever shows more than count! orders: without the reduction modulo count! the
   * loop of a later trial would not end.
   */
  lemma SeenAtMostFactorial(rng: Generator, count: nat, draws: nat)
    requires Bounded(rng)
    ensures |Seen(rng, count, draws)| <= Factorial(count)
  {
    var n := |Seen(rng, count, draws)|;
    var shown := FirstSeen(rng, count, draws, n);
    FirstSeenSize(rng, count, draws, n);
    FirstSeenArranges(rng, count, draws, n);
    ArrangementsBound(shown, Indices(count));
  }

  lemma {:induction false} FirstSeenArranges(rng: Generator, count: nat, draws: nat, m: nat)
    requires Bounded(rng) && m <= |Seen(rng, count, draws)|
    ensures forall s :: s in FirstSeen(rng, count, draws, m) ==> Arranges(s, Indices(count))
  {
    if m > 0 {
      FirstSeenArranges(rng, count, draws, m - 1);
      SeenAreOrders(rng, count, draws, m - 1);
      OrderShowsAll(Seen(rng, count, draws)[m - 1], count);
    }
  }

  // ----- And there are count! orders to show

  /** `rest` with `x` put in at place j. */
  ghost function PutAt(rest: seq<nat>, x: nat, j: nat): (s: seq<nat>)
    requires j <= |rest|
    ensures |s| == |rest| + 1 && s[j] == x
    ensures forall i :: 0 <= i < j ==> s[i] == rest[i]
    ensures forall i :: j < i < |s| ==> s[i] == rest[i - 1]
  {
    rest[..j] + [x] + rest[j..]
  }

  /** The orders `rest` gives with `x` put in at one of its first k places. */
  ghost function PutIn(rest: seq<nat>, x: nat, k: nat): (orders: seq<seq<nat>>)
    requires k <= |rest| + 1
    ensures |orders| == k && forall j :: 0 <= j < k ==> orders[j] == PutAt(rest, x, j)
  {
    if k == 0 then [] else PutIn(rest, x, k - 1) + [PutAt(rest, x, k - 1)]
  }

  ghost function PutInAll(rests: seq<seq<nat>>, x: nat): seq<seq<nat>> {
    if rests == [] then []
    else PutInAll(rests[..|rests| - 1], x) + PutIn(rests[|rests| - 1], x, |rests[|rests| - 1]| + 1)
  }

  /** Every order of 0..n. */
  ghost function AllOrders(n: nat): seq<seq<nat>> {
    if n == 0 then [[]] else PutInAll(AllOrders(n - 1), n - 1)
  }

  ghost predicate Different(orders: seq<seq<nat>>) {
    forall i, j :: 0 <= i < j < |orders| ==> orders[i] != orders[j]
  }

  ghost predicate AreOrders(orders: seq<seq<nat>>, n: nat) {
    forall s :: s in orders ==> IsOrder(s, n)
  }

  lemma PutAtKeepsOrder(rest: seq<nat>, n: nat, j: nat)
    requires IsOrder(rest, n) && j <= n
    ensures IsOrder(PutAt(rest, n, j), n + 1)
  {
  }

  lemma PutAtDiffers(rest: seq<nat>, other: seq<nat>, n: nat, i: nat, j: nat)
    requires IsOrder(rest, n) && IsOrder(other, n) && i <= n && j <= n && (rest != other || i != j)
    ensures PutAt(rest, n, i) != PutAt(other, n, j)
  {
    var s, t := PutAt(rest, n, i), PutAt(other, n, j);
    if i < j {
      assert t[i] == other[i];
    } else if j < i {
      assert s[j] == rest[j];
    } else {
      var k :| 0 <= k < n && rest[k] != other[k];
      assert if k < i then s[k] == rest[k] && t[k] == other[k] else s[k + 1] == rest[k] && t[k + 1] == other[k];
    }
  }

  /** Whose rest an order of `PutInAll` has, and where it was put in. */
  lemma {:induction false} PutInAllHolds(rests: seq<seq<nat>>, x: nat, s: seq<nat>) returns (r: nat, j: nat)
    requires s in PutInAll(rests, x)
    ensures r < |rests| && j <= |rests[r]| && s == PutAt(rests[r], x, j)
  {
    var m := |rests| - 1;
    if s in PutInAll(rests[..m], x) {
      r, j := PutInAllHolds(rests[..m], x, s);
    } else {
      r := m;
      j :| 0 <= j < |rests[m]| + 1 && PutIn(rests[m], x, |rests[m]| + 1)[j] == s;
    }
  }

  lemma OwnDiffer(rest: seq<nat>, n: nat)
    requires IsOrder(rest, n)
    ensures Different(PutIn(rest, n, n + 1)) && AreOrders(PutIn(rest, n, n + 1), n + 1)
  {
    var own := PutIn(rest, n, n + 1);
    forall i, j | 0 <= i < j < |own|
      ensures own[i] != own[j]
    {
      PutAtDiffers(rest, rest, n, i, j);
    }
    forall s | s in own
      ensures IsOrder(s, n + 1)
    {
      var j :| 0 <= j < |own| && own[j] == s;
      PutAtKeepsOrder(rest, n, j);
    }
  }

  lemma JoinedDiffer(a: seq<seq<nat>>, b: seq<seq<nat>>)
    requires Different(a) && Different(b) && forall s :: s in a ==> s !in b
    ensures Different(a + b)
  {
    forall i, j | 0 <= i < j < |a + b|
      ensures (a + b)[i] != (a + b)[j]
    {
      if i < |a| <= j {
        assert a[i] in a && b[j - |a|] in b;
      }
    }
  }

  lemma PutInApart(before: seq<seq<nat>>, last: seq<nat>, n: nat)
    requires AreOrders(before, n) && IsOrder(last, n) && last !in before
    ensures forall s :: s in PutInAll(before, n) ==> s !in PutIn(last, n, n + 1)
  {
    var b := PutIn(last, n, n + 1);
    forall s | s in PutInAll(before, n)
      ensures s !in b
    {
      var r, i := PutInAllHolds(before, n, s);
      assert before[r] in before;
      if s in b {
        var j :| 0 <= j < |b| && b[j] == s;
        PutAtDiffers(before[r], last, n, i, j);
      }
    }
  }

  lemma PutInOneMore(before: seq<seq<nat>>, last: seq<nat>, n: nat)
    requires AreOrders(before, n) && IsOrder(last, n) && last !in before
    requires Different(PutInAll(before, n)) && AreOrders(PutInAll(before, n), n + 1)
    ensures var more := PutInAll(before + [last], n);
      Different(more) && AreOrders(more, n + 1) && |more| == |PutInAll(before, n)| + n + 1
  {
    var all := before + [last];
    assert all[..|all| - 1] == before && all[|all| - 1] == last;
    OwnDiffer(last, n);
    PutInApart(before, last, n);
    JoinedDiffer(PutInAll(before, n), PutIn(last, n, n + 1));
  }

  lemma LastIsNew(rests: seq<seq<nat>>)
    requires Different(rests) && rests != []
    ensures var m := |rests| - 1; Different(rests[..m]) && rests[m] !in rests[..m] && rests == rests[..m] + [rests[m]]
  {
  }

  lemma {:induction false} PutInAllDiffer(rests: seq<seq<nat>>, n: nat)
    requires Different(rests) && AreOrders(rests, n)
    ensures Different(PutInAll(rests, n)) && AreOrders(PutInAll(rests, n), n + 1)
    ensures |PutInAll(rests, n)| == Product(|rests|, n + 1)
  {
    if rests != [] {
      var m := |rests| - 1;
      LastIsNew(rests);
      assert rests[m] in rests && forall s :: s in rests[..m] ==> s in rests;
      PutInAllDiffer(rests[..m], n);
      PutInOneMore(rests[..m], rests[m], n);
    }
  }

  lemma {:induction false} ProductIsTimes(n: nat, f: nat)
    ensures Product(n, f) == f * n
  {
    if n > 0 {
      ProductIsTimes(n - 1, f);
    }
  }

  lemma NextOrders(n: nat, orders: seq<seq<nat>>)
    requires Different(orders) && AreOrders(orders, n) && |orders| == Factorial(n)
    ensures var more := PutInAll(orders, n);
      |more| == Factorial(n + 1) && Different(more) && AreOrders(more, n + 1)
  {
    PutInAllDiffer(orders, n);
    ProductIsTimes(n + 1, Factorial(n));
    ProductIsTimes(Factorial(n), n + 1);
  }

  /** There are count! different orders: with `SeenAtMostFactorial`, neither more nor fewer can be shown. */
  lemma {:induction false} FactorialOrders(count: nat)
    ensures |AllOrders(count)| == Factorial(count) && Different(AllOrders(count)) && AreOrders(AllOrders(count), count)
  {
    if count > 0 {
      FactorialOrders(count - 1);
      NextOrders(count - 1, AllOrders(count - 1));
    }
  }
}
