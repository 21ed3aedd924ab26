// The sign-flip randomization test of a paired comparison: what it computes,
// and what it does not depend on.
module SignFlip {
  import opened Reals

  function Pow2(n: nat): (r: nat)
    ensures r >= 1
  {
    if n == 0 then 1 else 2 * Pow2(n - 1)
  }

  /** The deltas that carry a sign. */
  function NonZero(d: seq<real>): (r: seq<real>)
    ensures |r| <= |d|
    ensures forall i :: 0 <= i < |r| ==> r[i] != 0.0
  {
    if d == [] then []
    else if d[0] != 0.0 then [d[0]] + NonZero(d[1..])
    else NonZero(d[1..])
  }

  /** A row of signs: `true` is +1.0, `false` is -1.0. */
  type Signs = seq<bool>

  predicate AllOfLength(rows: seq<Signs>, n: nat) {
    forall i :: 0 <= i < |rows| ==> |rows[i]| == n
  }

  /** The product of a sign and a delta. */
  function Signed(sign: bool, x: real): real {
    if sign then x else -x
  }

  /** Entry-wise product: the deltas `d` under the signs `s`. */
  function Flip(s: Signs, d: seq<real>): (r: seq<real>)
    requires |s| == |d|
    ensures |r| == |d|
  {
    if d == [] then [] else [Signed(s[0], d[0])] + Flip(s[1..], d[1..])
  }

  /** The inner product of a row of signs with the deltas. */
  function Dot(s: Signs, d: seq<real>): real
    requires |s| == |d|
  {
    if d == [] then 0.0 else Signed(s[0], d[0]) + Dot(s[1..], d[1..])
  }

  function Interleave(a: seq<real>, b: seq<real>): (r: seq<real>)
    requires |a| == |b|
    ensures |r| == 2 * |a|
  {
    if a == [] then [] else [a[0], b[0]] + Interleave(a[1..], b[1..])
  }

  /** The absolute sums that start at `offset` and add `d` under every sign pattern. */
  function OffsetSums(d: seq<real>, offset: real): (r: seq<real>)
    ensures |r| == Pow2(|d|)
  {
    if d == [] then [Abs(offset)]
    else Interleave(OffsetSums(d[1..], offset - d[0]), OffsetSums(d[1..], offset + d[0]))
  }

  /** The absolute sums of `d` under every sign pattern, in pattern order (see `TableEntry`). */
  function PatternSums(d: seq<real>): (r: seq<real>)
    ensures |r| == Pow2(|d|)
  {
    OffsetSums(d, 0.0)
  }

  /** The absolute sums of `d` under drawn rows of signs. */
  function DrawSums(draws: seq<Signs>, d: seq<real>): (r: seq<real>)
    requires AllOfLength(draws, |d|)
    ensures |r| == |draws|
  {
    if draws == [] then [] else [Abs(Dot(draws[0], d))] + DrawSums(draws[1..], d)
  }

  function Tolerance(d: seq<real>): (r: real)
    ensures r > 0.0
  {
    0.000000001 * Max(1.0, AbsSum(d))
  }

  /** The least absolute sum that counts as reaching the observed one. */
  function Threshold(d: seq<real>): real {
    Abs(Sum(d)) - Tolerance(d)
  }

  /** The exact test applies: every pattern fits in the budget of resamples. */
  predicate IsExact(deltas: seq<real>, resamples: nat) {
    Pow2(|NonZero(deltas)|) <= resamples
  }

  /** What the random generator must supply when the test is not exact. */
  predicate DrawsFit(deltas: seq<real>, resamples: nat, draws: seq<Signs>) {
    IsExact(deltas, resamples) || (|draws| == resamples && AllOfLength(draws, |NonZero(deltas)|))
  }

  function Share(part: nat, whole: nat): real
    requires whole > 0
  {
    part as real / whole as real
  }

  datatype Fraction = Fraction(part: nat, whole: nat)

  /** Sign patterns that reach the observed sum, out of those tried. */
  function ReachingPatterns(deltas: seq<real>, resamples: nat, draws: seq<Signs>): (f: Fraction)
    requires DrawsFit(deltas, resamples, draws)
    ensures f.whole > 0
  {
    var d := NonZero(deltas);
    if d == [] then Fraction(1, 1)
    else if IsExact(deltas, resamples) then Fraction(CountAtLeast(PatternSums(d), Threshold(d)), Pow2(|d|))
    else Fraction(1 + CountAtLeast(DrawSums(draws, d), Threshold(d)), 1 + resamples)
  }

  /** The two-sided p-value of the mean of `deltas`. */
  function PValue(deltas: seq<real>, resamples: nat, draws: seq<Signs>): real
    requires DrawsFit(deltas, resamples, draws)
  {
    var f := ReachingPatterns(deltas, resamples, draws);
    Share(f.part, f.whole)
  }

  const CHUNK: nat := 256

  /** The random branch draws its rows in chunks; the p-value is that of all of them. */
  method SignFlipPValue(deltas: seq<real>, resamples: nat, draws: seq<Signs>) returns (p: real)
    requires DrawsFit(deltas, resamples, draws)
    ensures p == PValue(deltas, resamples, draws)
  {
    var d := NonZero(deltas);
    if d == [] {
      return 1.0;
    }
    var observed := Abs(Sum(d));
    var tolerance := Tolerance(d);
    if Pow2(|d|) <= resamples {
      var sums := PatternSums(d);
      return Share(CountAtLeast(sums, observed - tolerance), |sums|);
    }
    var hits := 0;
    var start := 0;
    assert draws[..0] == [] && draws[..resamples] == draws;
    while start < resamples
      invariant 0 <= start
      invariant hits == CountAtLeast(DrawSums(draws[..if start < resamples then start else resamples], d), observed - tolerance)
    {
      var rows := if CHUNK < resamples - start then CHUNK else resamples - start;
      var chunk := draws[start..start + rows];
      PartsOfLength(draws, |d|, start, start + rows);
      DrawSumsConcat(draws[..start], chunk, d, observed - tolerance);
      assert draws[..start + rows] == draws[..start] + chunk;
      hits := hits + CountAtLeast(DrawSums(chunk, d), observed - tolerance);
      start := start + CHUNK;
    }
    p := Share(1 + hits, 1 + resamples);
  }

  lemma PartsOfLength(rows: seq<Signs>, n: nat, i: nat, j: nat)
    requires AllOfLength(rows, n) && i <= j <= |rows|
    ensures AllOfLength(rows[..i], n) && AllOfLength(rows[i..j], n)
  {
  }

  lemma {:induction false} DrawSumsConcat(a: seq<Signs>, b: seq<Signs>, d: seq<real>, c: real)
    requires AllOfLength(a, |d|) && AllOfLength(b, |d|)
    ensures CountAtLeast(DrawSums(a + b, d), c) == CountAtLeast(DrawSums(a, d), c) + CountAtLeast(DrawSums(b, d), c)
  {
    if a == [] {
      assert a + b == b;
    } else {
      DrawSumsConcat(a[1..], b, d, c);
      assert (a + b)[0] == a[0] && (a + b)[1..] == a[1..] + b;
    }
  }

  // ----- The table of patterns: entry k sums the deltas under the bits of k

  /** The binary shift `k >> j`. */
  ghost function ShiftRight(k: nat, j: nat): nat {
    if j == 0 then k else ShiftRight(k / 2, j - 1)
  }

  /** The first n binary digits of k as signs: a set bit is +1, a clear one -1. */
  ghost function Pattern(k: nat, n: nat): (r: Signs)
    ensures |r| == n
  {
    if n == 0 then [] else [k % 2 == 1] + Pattern(k / 2, n - 1)
  }

  /** Row k of the pattern table holds bit j of k in column j. */
  lemma {:induction false} PatternBits(k: nat, n: nat, j: nat)
    requires j < n
    ensures Pattern(k, n)[j] == (ShiftRight(k, j) % 2 == 1)
  {
    if j > 0 {
      PatternBits(k / 2, n - 1, j - 1);
    }
  }

  lemma {:induction false} InterleaveAt(a: seq<real>, b: seq<real>, k: nat)
    requires |a| == |b| && k < 2 * |a|
    ensures Interleave(a, b)[k] == if k % 2 == 1 then b[k / 2] else a[k / 2]
  {
    if k >= 2 {
      InterleaveAt(a[1..], b[1..], k - 2);
      assert (k - 2) / 2 == k / 2 - 1 && (k - 2) % 2 == k % 2;
    }
  }

  /** Entry k of the sums is that of the deltas under pattern k. */
  lemma {:induction false} TableEntry(d: seq<real>, offset: real, k: nat)
    requires k < Pow2(|d|)
    ensures OffsetSums(d, offset)[k] == Abs(offset + Dot(Pattern(k, |d|), d))
  {
    if d != [] {
      var next := offset + Signed(k % 2 == 1, d[0]);
      InterleaveAt(OffsetSums(d[1..], offset - d[0]), OffsetSums(d[1..], offset + d[0]), k);
      assert OffsetSums(d, offset)[k] == OffsetSums(d[1..], next)[k / 2];
      TableEntry(d[1..], next, k / 2);
      assert Pattern(k, |d|)[1..] == Pattern(k / 2, |d[1..]|);
    }
  }

  // ----- How many sign choices reach a threshold, and what that does not depend on

  /** How many sign choices for `d` move `offset` to an absolute value of at least `c`. */
  ghost function Hits(d: seq<real>, offset: real, c: real): nat {
    if d == [] then (if Abs(offset) >= c then 1 else 0)
    else Hits(d[1..], offset - d[0], c) + Hits(d[1..], offset + d[0], c)
  }

  lemma {:induction false} CountInterleaved(a: seq<real>, b: seq<real>, c: real)
    requires |a| == |b|
    ensures CountAtLeast(Interleave(a, b), c) == CountAtLeast(a, c) + CountAtLeast(b, c)
  {
    if a != [] {
      var rest := Interleave(a[1..], b[1..]);
      CountInterleaved(a[1..], b[1..], c);
      assert Interleave(a, b)[1..] == [b[0]] + rest;
      assert ([b[0]] + rest)[1..] == rest;
    }
  }

  lemma {:induction false} TableHits(d: seq<real>, offset: real, c: real)
    ensures CountAtLeast(OffsetSums(d, offset), c) == Hits(d, offset, c)
  {
    if d != [] {
      CountInterleaved(OffsetSums(d[1..], offset - d[0]), OffsetSums(d[1..], offset + d[0]), c);
      TableHits(d[1..], offset - d[0], c);
      TableHits(d[1..], offset + d[0], c);
    }
  }

  /** Re-flipping the deltas only reorders the sign choices. */
  lemma {:induction false} HitsReflip(s: Signs, d: seq<real>, offset: real, c: real)
    requires |s| == |d|
    ensures Hits(Flip(s, d), offset, c) == Hits(d, offset, c)
  {
    if d != [] {
      HitsReflip(s[1..], d[1..], offset - d[0], c);
      HitsReflip(s[1..], d[1..], offset + d[0], c);
    }
  }

  lemma Distribute(f: nat, a: nat, b: nat)
    ensures f * (a + b) == f * a + f * b
    ensures a == b ==> f * a + f * b == 2 * f * a
  {
  }

  /** A zero delta doubles every hit: the zeros can be dropped. */
  lemma {:induction false} HitsNonZero(d: seq<real>, offset: real, c: real)
    ensures Hits(d, offset, c) == Pow2(|d| - |NonZero(d)|) * Hits(NonZero(d), offset, c)
  {
    if d != [] {
      var r := NonZero(d[1..]);
      var f := Pow2(|d| - 1 - |r|);
      var x, y := Hits(r, offset - d[0], c), Hits(r, offset + d[0], c);
      HitsNonZero(d[1..], offset - d[0], c);
      HitsNonZero(d[1..], offset + d[0], c);
      assert Hits(d, offset, c) == f * x + f * y;
      Distribute(f, x, y);
      if d[0] != 0.0 {
        assert NonZero(d)[1..] == r;
        assert Hits(NonZero(d), offset, c) == x + y;
      } else {
        assert Pow2(|d| - |r|) == 2 * f;
        assert Hits(NonZero(d), offset, c) == x == y;
      }
    }
  }

  /** Moving one delta to the front changes no count. */
  lemma {:induction false} HitsMoveToFront(a: seq<real>, x: real, b: seq<real>, offset: real, c: real)
    ensures Hits(a + [x] + b, offset, c) == Hits([x] + (a + b), offset, c)
  {
    if a == [] {
      assert a + [x] + b == [x] + (a + b);
    } else {
      var t := a[1..];
      assert (a + [x] + b)[1..] == t + [x] + b;
      assert ([x] + (a + b))[1..] == a + b && (a + b)[1..] == t + b;
      assert ([x] + (t + b))[1..] == t + b;
      HitsMoveToFront(t, x, b, offset - a[0], c);
      HitsMoveToFront(t, x, b, offset + a[0], c);
      assert offset - a[0] - x == offset - x - a[0] && offset + a[0] - x == offset - x + a[0];
      assert offset - a[0] + x == offset + x - a[0] && offset + a[0] + x == offset + x + a[0];
    }
  }

  lemma {:induction false} HitsPermuted(d: seq<real>, e: seq<real>, offset: real, c: real)
    requires multiset(d) == multiset(e)
    ensures Hits(d, offset, c) == Hits(e, offset, c)
  {
    if d == [] {
      assert |multiset(e)| == 0;
    } else {
      var i := SplitAtHead(d, e);
      var rest := e[..i] + e[i + 1..];
      HitsMoveToFront(e[..i], d[0], e[i + 1..], offset, c);
      assert ([d[0]] + rest)[1..] == rest;
      HitsPermuted(d[1..], rest, offset - d[0], c);
      HitsPermuted(d[1..], rest, offset + d[0], c);
    }
  }

  // ----- The exact p-value as a share of the sign choices

  lemma {:induction false} NonZeroKeepsSums(d: seq<real>)
    ensures Sum(NonZero(d)) == Sum(d) && AbsSum(NonZero(d)) == AbsSum(d)
  {
    if d != [] {
      NonZeroKeepsSums(d[1..]);
      if d[0] != 0.0 {
        assert NonZero(d)[1..] == NonZero(d[1..]);
      }
    }
  }

  lemma {:induction false} NonZeroFilters(d: seq<real>)
    ensures forall x :: multiset(NonZero(d))[x] == if x == 0.0 then 0 else multiset(d)[x]
  {
    if d != [] {
      NonZeroFilters(d[1..]);
      assert d == [d[0]] + d[1..];
    }
  }

  lemma NonZeroPermuted(d: seq<real>, e: seq<real>)
    requires multiset(d) == multiset(e)
    ensures |d| == |e| && |NonZero(d)| == |NonZero(e)|
  {
    NonZeroFilters(d);
    NonZeroFilters(e);
    assert multiset(NonZero(d)) == multiset(NonZero(e));
    assert |NonZero(d)| == |multiset(NonZero(d))|;
    assert |d| == |multiset(d)|;
  }

  lemma {:induction false} FlipKeepsSizes(s: Signs, d: seq<real>)
    requires |s| == |d|
    ensures Sum(Flip(s, d)) == Dot(s, d)
    ensures AbsSum(Flip(s, d)) == AbsSum(d)
    ensures |NonZero(Flip(s, d))| == |NonZero(d)|
  {
    if d != [] {
      FlipKeepsSizes(s[1..], d[1..]);
    }
  }

  lemma {:induction false} Pow2Splits(m: nat, n: nat)
    ensures Pow2(m + n) == Pow2(m) * Pow2(n)
  {
    if m > 0 {
      Pow2Splits(m - 1, n);
      assert Pow2(m + n) == 2 * Pow2(m - 1 + n);
      assert 2 * (Pow2(m - 1) * Pow2(n)) == (2 * Pow2(m - 1)) * Pow2(n);
    }
  }

  lemma ScaleFraction(f: nat, h: nat, m: nat)
    requires f > 0 && m > 0
    ensures f * m > 0 && Share(f * h, f * m) == Share(h, m)
  {
    var x := h as real / m as real;
    assert h as real == x * m as real;
    assert (f * h) as real == f as real * h as real;
    assert (f * m) as real == f as real * m as real;
    assert (f * h) as real == x * (f * m) as real;
  }

  lemma HitsShare(d: seq<real>, c: real)
    ensures Share(Hits(NonZero(d), 0.0, c), Pow2(|NonZero(d)|)) == Share(Hits(d, 0.0, c), Pow2(|d|))
  {
    var z := NonZero(d);
    HitsNonZero(d, 0.0, c);
    Pow2Splits(|d| - |z|, |z|);
    ScaleFraction(Pow2(|d| - |z|), Hits(z, 0.0, c), Pow2(|z|));
  }

  /** An exact p-value is the share of all sign choices, zeros included, that reach the threshold. */
  lemma ExactIsShare(d: seq<real>, resamples: nat, draws: seq<Signs>)
    requires IsExact(d, resamples)
    ensures PValue(d, resamples, draws) == Share(Hits(d, 0.0, Threshold(d)), Pow2(|d|))
  {
    var z := NonZero(d);
    NonZeroKeepsSums(d);
    assert Threshold(z) == Threshold(d);
    HitsShare(d, Threshold(d));
    if z == [] {
      assert Hits(z, 0.0, Threshold(d)) == 1;
    } else {
      TableHits(z, 0.0, Threshold(z));
    }
  }

  // ----- Symmetries and bounds

  /** The exact p-value does not depend on the order of the deltas. */
  lemma PermutationInvariant(d: seq<real>, e: seq<real>, resamples: nat, draws: seq<Signs>)
    requires IsExact(d, resamples)
    requires multiset(d) == multiset(e)
    ensures IsExact(e, resamples)
    ensures PValue(d, resamples, draws) == PValue(e, resamples, draws)
  {
    NonZeroPermuted(d, e);
    ExactIsShare(d, resamples, draws);
    ExactIsShare(e, resamples, draws);
    OrderIrrelevant(d, e, 0.0);
    HitsPermuted(d, e, 0.0, Threshold(d));
  }

  /** The deltas of the comparison with its two sides exchanged. */
  ghost function Negated(d: seq<real>): (r: seq<real>)
    ensures |r| == |d|
  {
    if d == [] then [] else [-d[0]] + Negated(d[1..])
  }

  ghost function AllMinus(n: nat): (r: Signs)
    ensures |r| == n
  {
    if n == 0 then [] else [false] + AllMinus(n - 1)
  }

  lemma {:induction false} NegatedIsFlip(d: seq<real>)
    ensures Negated(d) == Flip(AllMinus(|d|), d)
    ensures Sum(Negated(d)) == -Sum(d)
  {
    if d != [] {
      NegatedIsFlip(d[1..]);
      assert AllMinus(|d|)[1..] == AllMinus(|d[1..]|);
    }
  }

  /** Exchanging the two sides of the comparison keeps the exact p-value. */
  lemma NegationInvariant(d: seq<real>, resamples: nat, draws: seq<Signs>)
    requires IsExact(d, resamples)
    ensures IsExact(Negated(d), resamples)
    ensures PValue(Negated(d), resamples, draws) == PValue(d, resamples, draws)
  {
    NegatedIsFlip(d);
    FlipKeepsSizes(AllMinus(|d|), d);
    ExactIsShare(d, resamples, draws);
    ExactIsShare(Negated(d), resamples, draws);
    HitsReflip(AllMinus(|d|), d, 0.0, Threshold(d));
  }

  lemma {:induction false} ExtremesHit(d: seq<real>, offset: real, c: real)
    ensures Abs(offset + Sum(d)) >= c ==> Hits(d, offset, c) >= 1
    ensures Abs(offset - Sum(d)) >= c ==> Hits(d, offset, c) >= 1
  {
    if d != [] {
      ExtremesHit(d[1..], offset + d[0], c);
      ExtremesHit(d[1..], offset - d[0], c);
    }
  }

  /** All plus and all minus always reach the observed sum: an exact p-value is at least 2 / 2^n. */
  lemma SmallestPValue(deltas: seq<real>, resamples: nat, draws: seq<Signs>)
    requires IsExact(deltas, resamples)
    ensures var n := |NonZero(deltas)|;
      if n == 0 then PValue(deltas, resamples, draws) == 1.0
      else Share(1, Pow2(n - 1)) <= PValue(deltas, resamples, draws) <= 1.0
  {
    var d := NonZero(deltas);
    if d != [] {
      var c := Threshold(d);
      TableHits(d, 0.0, c);
      CountMonotone(PatternSums(d), c, c);
      ExtremesHit(d[1..], -d[0], c);
      ExtremesHit(d[1..], d[0], c);
      assert Hits(d, 0.0, c) == Hits(d[1..], -d[0], c) + Hits(d[1..], d[0], c);
      ScaleFraction(2, 1, Pow2(|d| - 1));
      ShareBetween(2, CountAtLeast(PatternSums(d), c), Pow2(|d|));
    }
  }

  lemma ShareMonotone(part: nat, larger: nat, whole: nat)
    requires part <= larger && whole > 0
    ensures Share(part, whole) <= Share(larger, whole)
  {
    DivideMonotone(part as real, larger as real, whole as real);
  }

  lemma DivideMonotone(x: real, y: real, m: real)
    requires x <= y && m > 0.0
    ensures x / m <= y / m
  {
    var a, b := x / m, y / m;
    assert x == a * m && y == b * m;
    assert (b - a) * m >= 0.0;
  }

  lemma ShareBetween(low: nat, part: nat, whole: nat)
    requires low <= part <= whole && whole > 0
    ensures Share(low, whole) <= Share(part, whole) <= 1.0
  {
    ShareMonotone(low, part, whole);
    ShareMonotone(part, whole, whole);
  }

  /** A random p-value is never 0 and never above 1. */
  lemma RandomPValueRange(deltas: seq<real>, resamples: nat, draws: seq<Signs>)
    requires DrawsFit(deltas, resamples, draws) && !IsExact(deltas, resamples)
    ensures Share(1, 1 + resamples) <= PValue(deltas, resamples, draws) <= 1.0
  {
    var d := NonZero(deltas);
    if d != [] {
      var sums := DrawSums(draws, d);
      CountMonotone(sums, Threshold(d), Threshold(d));
      ShareBetween(1, 1 + CountAtLeast(sums, Threshold(d)), 1 + resamples);
    } else {
      ShareBetween(1, 1 + resamples, 1 + resamples);
    }
  }
}
