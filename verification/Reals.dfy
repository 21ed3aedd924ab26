// Sums, extrema and counts over sequences of reals, shared by the statistical modules.
module Reals {

  function Abs(x: real): real {
    if x < 0.0 then -x else x
  }

  function Min(x: real, y: real): real {
    if x <= y then x else y
  }

  function Max(x: real, y: real): real {
    if x >= y then x else y
  }

  function Sum(s: seq<real>): real {
    if s == [] then 0.0 else s[0] + Sum(s[1..])
  }

  function AbsSum(s: seq<real>): real {
    if s == [] then 0.0 else Abs(s[0]) + AbsSum(s[1..])
  }

  /** How many entries of `s` are at least `c`. */
  function CountAtLeast(s: seq<real>, c: real): nat {
    if s == [] then 0 else (if s[0] >= c then 1 else 0) + CountAtLeast(s[1..], c)
  }

  /** How many entries of `s` are at most `c`. */
  function CountAtMost(s: seq<real>, c: real): nat {
    if s == [] then 0 else (if s[0] <= c then 1 else 0) + CountAtMost(s[1..], c)
  }

  lemma {:induction false} SumConcat(s: seq<real>, t: seq<real>)
    ensures Sum(s + t) == Sum(s) + Sum(t)
    ensures AbsSum(s + t) == AbsSum(s) + AbsSum(t)
  {
    if s == [] {
      assert s + t == t;
    } else {
      SumConcat(s[1..], t);
      assert (s + t)[1..] == s[1..] + t;
    }
  }

  lemma {:induction false} CountConcat(s: seq<real>, t: seq<real>, c: real)
    ensures CountAtLeast(s + t, c) == CountAtLeast(s, c) + CountAtLeast(t, c)
    ensures CountAtMost(s + t, c) == CountAtMost(s, c) + CountAtMost(t, c)
  {
    if s == [] {
      assert s + t == t;
    } else {
      CountConcat(s[1..], t, c);
      assert (s + t)[1..] == s[1..] + t;
    }
  }

  /** Where the first entry of `s` sits in a rearrangement `t` of it. */
  lemma SplitAtHead<T>(s: seq<T>, t: seq<T>) returns (i: nat)
    requires s != [] && multiset(s) == multiset(t)
    ensures i < |t| && t[i] == s[0]
    ensures t == t[..i] + [s[0]] + t[i + 1..]
    ensures multiset(s[1..]) == multiset(t[..i] + t[i + 1..])
  {
    assert s[0] in multiset(t);
    i :| 0 <= i < |t| && t[i] == s[0];
    assert t == t[..i] + [s[0]] + t[i + 1..];
    assert s == [s[0]] + s[1..];
    calc {
      multiset(s[1..]);
      multiset(s) - multiset{s[0]};
      multiset(t) - multiset{s[0]};
      multiset(t[..i] + [s[0]] + t[i + 1..]) - multiset{s[0]};
      multiset(t[..i] + t[i + 1..]);
    }
  }

  /** Sums and counts do not depend on the order of the entries. */
  lemma {:induction false} OrderIrrelevant(s: seq<real>, t: seq<real>, c: real)
    requires multiset(s) == multiset(t)
    ensures Sum(s) == Sum(t) && AbsSum(s) == AbsSum(t)
    ensures CountAtLeast(s, c) == CountAtLeast(t, c) && CountAtMost(s, c) == CountAtMost(t, c)
  {
    if s == [] {
      assert |multiset(t)| == 0;
    } else {
      var i := SplitAtHead(s, t);
      OrderIrrelevant(s[1..], t[..i] + t[i + 1..], c);
      SumConcat(t[..i], t[i + 1..]);
      SumConcat(t[..i] + [s[0]], t[i + 1..]);
      SumConcat(t[..i], [s[0]]);
      CountConcat(t[..i], t[i + 1..], c);
      CountConcat(t[..i] + [s[0]], t[i + 1..], c);
      CountConcat(t[..i], [s[0]], c);
    }
  }

  /** A tighter threshold counts no more entries, and no count exceeds the length. */
  lemma {:induction false} CountMonotone(s: seq<real>, c: real, d: real)
    requires c <= d
    ensures CountAtLeast(s, d) <= CountAtLeast(s, c) <= |s|
    ensures CountAtMost(s, c) <= CountAtMost(s, d) <= |s|
  {
    if s != [] {
      CountMonotone(s[1..], c, d);
    }
  }

  /** The product k * x, as a sum of k terms (see `TimesIsProduct`). */
  function Times(k: nat, x: real): real {
    if k == 0 then 0.0 else x + Times(k - 1, x)
  }

  lemma {:induction false} TimesIsProduct(k: nat, x: real)
    ensures Times(k, x) == k as real * x
  {
    if k > 0 {
      TimesIsProduct(k - 1, x);
      assert k as real * x == (k - 1) as real * x + x;
    }
  }
}
